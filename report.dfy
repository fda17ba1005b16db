/**
 * The WhatsApp report built from the gas readings
 * (`format_message_with_styles`, app/services/json_utils.py:36-111): the
 * column names are normalised and the four needed columns checked, then
 * the message is built line by line (an introduction, a header, one block
 * per row, a footer with the row count) and finally the characters in a
 * fixed set of code point ranges are deleted.
 */
module Report {
  import opened Wrappers
  import opened Text
  import opened Currency

  /**
   * A cell of the DataFrame, seen through the two Python calls made on it:
   * `str(cell)` and `float(cell)` (None when `float` raises).
   */
  datatype Cell = Cell(text: string, number: Option<Amount>)

  /** The DataFrame: its column names and, per record, one cell per column. */
  datatype Frame = Frame(columns: seq<string>, rows: seq<seq<Cell>>)

  /** Every row has a cell for every column. */
  predicate Rectangular(data: Frame) {
    forall i :: 0 <= i < |data.rows| ==> |data.rows[i]| == |data.columns|
  }

  /** The ValueError raised for the first needed column that is absent. */
  datatype ReportError = MissingColumn(key: string, columns: seq<string>)

  // ---------------------------------------------------------------------
  // Column names
  // ---------------------------------------------------------------------

  /** `x.strip().lower().replace(" ", "_")`. */
  function NormalizeColumn(name: string): string {
    Replace(Lower(Strip(name)), " ", "_")
  }

  function NormalizeColumns(columns: seq<string>): (r: seq<string>)
    ensures |r| == |columns| && forall i :: 0 <= i < |columns| ==> r[i] == NormalizeColumn(columns[i])
  {
    seq(|columns|, i requires 0 <= i < |columns| => NormalizeColumn(columns[i]))
  }

  /**
   * A column name `NormalizeColumn` leaves as it is: no whitespace at either
   * end, no space inside, and no capital `lower()` would change.
   */
  predicate Normalized(name: string) {
    && (name != [] ==> !IsSpace(name[0]) && !IsSpace(name[|name| - 1]))
    && ' ' !in name
    && Lower(name) == name
  }

  /** Lower-casing a character twice is lower-casing it once. */
  lemma LowerCharIdempotent(c: char)
    ensures LowerChar(LowerChar(c)) == LowerChar(c)
    ensures IsSpace(LowerChar(c)) <==> IsSpace(c)
  {
  }

  /** A normalised name is its own normalisation. */
  lemma NormalizedFixed(name: string)
    requires Normalized(name)
    ensures NormalizeColumn(name) == name
  {
    StripUnchanged(name);
    ReplaceAbsent(name, ' ', "_");
  }

  /**
   * `strip()` removes the padding, `lower()` the capitals and
   * `replace(" ", "_")` the inner spaces: every name comes out normalised,
   * character by character from its stripped form, so normalising twice
   * changes nothing.
   */
  lemma NormalizeColumnSpec(name: string)
    ensures var s, r := Strip(name), NormalizeColumn(name);
      && |r| == |s|
      && (forall i :: 0 <= i < |s| ==> r[i] == if LowerChar(s[i]) == ' ' then '_' else LowerChar(s[i]))
      && Normalized(r)
    ensures NormalizeColumn(NormalizeColumn(name)) == NormalizeColumn(name)
  {
    var s := Strip(name);
    var l := Lower(s);
    var r := NormalizeColumn(name);
    LStripSpec(name);
    RStripSpec(LStrip(name));
    LowerPointwise(s);
    ReplaceCharByChar(l, ' ', '_');
    LowerPointwise(r);
    forall i | 0 <= i < |r|
      ensures Lower(r)[i] == r[i]
    {
      LowerCharIdempotent(s[i]);
    }
    if s != [] {
      LowerCharIdempotent(s[0]);
      LowerCharIdempotent(s[|s| - 1]);
    }
    NormalizedFixed(r);
  }

  /** Lower-case letters, digits and underscores only. */
  predicate SnakeCase(name: string) {
    forall i :: 0 <= i < |name| ==> 'a' <= name[i] <= 'z' || '0' <= name[i] <= '9' || name[i] == '_'
  }

  /** A snake_case name is normalised, so `NormalizeColumn` keeps it. */
  lemma SnakeCaseFixed(name: string)
    requires SnakeCase(name)
    ensures NormalizeColumn(name) == name
  {
    LowerPointwise(name);
    assert Lower(name) == name;
    assert forall i :: 0 <= i < |name| ==> name[i] != ' ';
    NormalizedFixed(name);
  }

  /** Columns that are all snake_case pass through `NormalizeColumns` unchanged. */
  lemma SnakeCaseColumnsFixed(columns: seq<string>)
    requires forall i :: 0 <= i < |columns| ==> SnakeCase(columns[i])
    ensures NormalizeColumns(columns) == columns
  {
    forall i | 0 <= i < |columns|
      ensures NormalizeColumns(columns)[i] == columns[i]
    {
      SnakeCaseFixed(columns[i]);
    }
  }

  /** The keys of each record the Excel reader builds, in insertion order. */
  const RecordKeys: seq<string> := ["data_leitura", "apartamento", "leitura_atual", "consumo_m3", "calculo", "valor_final_rs"]

  /**
   * The record keys are snake_case, so a DataFrame made from the records
   * keeps its column names; in particular the four needed keys are their own
   * normalisation.
   */
  lemma RecordKeysUnchanged()
    ensures NormalizeColumns(RecordKeys) == RecordKeys
    ensures forall k :: k in Needed ==> NormalizeColumn(k) == k
  {
    assert forall i :: 0 <= i < |RecordKeys| ==> SnakeCase(RecordKeys[i]);
    SnakeCaseColumnsFixed(RecordKeys);
    forall k | k in Needed
      ensures NormalizeColumn(k) == k
    {
      assert SnakeCase(k);
      SnakeCaseFixed(k);
    }
  }

  lemma HeaderStripped()
    ensures Strip(" Leitura Atual ") == "Leitura Atual"
  {
    var s := " Leitura Atual ";
    assert LStrip(s) == s[1..];
    assert RStrip(s[1..]) == s[1..][..|s| - 2];
    assert s[1..][..|s| - 2] == "Leitura Atual";
  }

  lemma HeaderLowered()
    ensures Lower("Leitura Atual") == "leitura atual"
  {
    LowerPointwise("Leitura Atual");
  }

  lemma HeaderUnderscored()
    ensures Replace("leitura atual", " ", "_") == "leitura_atual"
  {
    ReplaceCharByChar("leitura atual", ' ', '_');
  }

  /** A padded, capitalised header with an inner space. */
  lemma NormalizeColumnExample()
    ensures NormalizeColumn(" Leitura Atual ") == "leitura_atual"
  {
    HeaderStripped();
    HeaderLowered();
    HeaderUnderscored();
  }




  /** The keys of `col_map`, in its iteration order. */
  const Needed: seq<string> := ["apartamento", "leitura_atual", "consumo_m3", "valor_final_rs"]

  /** The first needed column, in `col_map` order from `from` on, that `columns` lacks. */
  function FirstMissing(columns: seq<string>, from: nat): (r: Option<string>)
    requires from <= |Needed|
    ensures r.Some? ==> r.value in Needed[from..] && r.value !in columns
    ensures r.None? ==> forall k :: k in Needed[from..] ==> k in columns
    decreases |Needed| - from
  {
    if from == |Needed| then None
    else if Needed[from] !in columns then Some(Needed[from])
    else FirstMissing(columns, from + 1)
  }

  /** The missing key reported is the earliest in `col_map` order: every key before it is present. */
  lemma {:induction false} FirstMissingIsFirst(columns: seq<string>, from: nat)
    requires from <= |Needed|
    ensures FirstMissing(columns, from).Some? ==>
      exists j :: from <= j < |Needed| && Needed[j] == FirstMissing(columns, from).value
        && forall i :: from <= i < j ==> Needed[i] in columns
    decreases |Needed| - from
  {
    if from < |Needed| && Needed[from] in columns {
      FirstMissingIsFirst(columns, from + 1);
    }
  }

  /** The cells of `row` under the columns called `key`, in column order: one per such column. */
  function Matching(columns: seq<string>, row: seq<Cell>, key: string): (r: seq<Cell>)
    requires |row| == |columns|
    ensures |r| == multiset(columns)[key]
  {
    if columns == [] then []
    else
      assert columns == [columns[0]] + columns[1..];
      (if columns[0] == key then [row[0]] else []) + Matching(columns[1..], row[1..], key)
  }

  /**
   * `row[key]` on the renamed row. When one column carries the name, its
   * cell. When several do (two names that normalise alike), pandas returns
   * a Series: `str` of it is `series(cells)`, a layout of pandas' own, and
   * `float` of it raises, so it has no number.
   */
  function CellOf(columns: seq<string>, row: seq<Cell>, key: string, series: seq<Cell> -> string): Cell
    requires key in columns && |row| == |columns|
  {
    var cells := Matching(columns, row, key);
    if |cells| == 1 then cells[0] else Cell(series(cells), None)
  }

  /** The only column called `key` is the first one. */
  lemma {:induction false} MatchingSingle(columns: seq<string>, row: seq<Cell>, key: string)
    requires |row| == |columns| && multiset(columns)[key] == 1
    ensures key in columns && Matching(columns, row, key) == [row[IndexOf(columns, key)]]
  {
    assert columns == [columns[0]] + columns[1..];
    if columns[0] != key {
      MatchingSingle(columns[1..], row[1..], key);
    } else {
      assert |Matching(columns[1..], row[1..], key)| == 0;
    }
  }

  /** A name carried by one column reads the cell under that column. */
  lemma CellOfSingle(columns: seq<string>, row: seq<Cell>, key: string, series: seq<Cell> -> string)
    requires |row| == |columns| && multiset(columns)[key] == 1
    ensures key in columns && CellOf(columns, row, key, series) == row[IndexOf(columns, key)]
  {
    MatchingSingle(columns, row, key);
  }

  /**
   * A name carried by several columns reads every cell under them: the text
   * is pandas' rendering of the Series and there is no number.
   */
  lemma CellOfDuplicate(columns: seq<string>, row: seq<Cell>, key: string, series: seq<Cell> -> string)
    requires |row| == |columns| && multiset(columns)[key] >= 2
    ensures key in columns
    ensures CellOf(columns, row, key, series) == Cell(series(Matching(columns, row, key)), None)
    ensures |Matching(columns, row, key)| == multiset(columns)[key]
  {
  }

  // ---------------------------------------------------------------------
  // The text before emoji removal
  // ---------------------------------------------------------------------

  /** Below the lowest range or above the highest one: never removed. */
  predicate OutsideRanges(c: char) {
    c as int < 0x24C2 || 0x1F6FF < c as int
  }

  /** Text that emoji removal leaves alone. */
  type KeptText = s: string | forall i :: 0 <= i < |s| ==> OutsideRanges(s[i]) witness ""

  /** The introduction: a robot emoji, then accented Portuguese. */
  const IntroStart: KeptText := "\U{1F916} Esta \U{E9} uma mensagem "
  const IntroMiddle: KeptText := "autom\U{E1}tica do sistema de "
  const IntroEnd: KeptText := "consumo de g\U{E1}s.\n\n"
  const Intro: KeptText := IntroStart + IntroMiddle + IntroEnd

  /** `'─' * 25`. */
  const Rule: string := Repeat('\U{2500}', 25)

  // The fixed pieces of the f-strings, around the inserted values.
  const HeaderLead: AsciiText := "*Consumo de gas e valor a pagar "
  const HeaderEnd: AsciiText := "*\n\n"
  const DateLead: AsciiText := "_Relatorio gerado em "
  const DateEnd: AsciiText := "_\n"
  const TotalLead: AsciiText := "_Total de apartamentos: "
  const TotalEnd: AsciiText := "_"
  const House: char := '\U{1F3E0}'
  const AptCaption: AsciiText := " Apartamento: *"
  const AptEnd: AsciiText := "*\n"
  const Chart: char := '\U{1F4CA}'
  const LeituraCaption: AsciiText := " Leitura atual: "
  const LeituraEnd: AsciiText := "\n"
  const Bolt: char := '\U{26A1}'
  const ConsumoCaption: AsciiText := " Consumo: _"
  const ConsumoEnd: AsciiText := "_\n"
  const MoneyBag: char := '\U{1F4B0}'
  const ValorCaption: AsciiText := " Valor final: *"
  const ValorEnd: AsciiText := "*\n"
  const BlankLine: AsciiText := "\n\n"

  /** `f"*Consumo de gas e valor a pagar {target_date}*\\n\\n"`. */
  function Header(targetDate: string): string {
    HeaderLead + targetDate + HeaderEnd
  }

  /** The two footer lines; the second has no trailing newline. */
  function Footer(targetDate: string, count: nat): string {
    (DateLead + targetDate + DateEnd) + (TotalLead + NatToString(count) + TotalEnd)
  }

  /** The money column: the Brazilian amount, or `str(value)` when `float(value)` raises. */
  function ValorText(c: Cell): string {
    match c.number
    case Some(a) => Valor(a)
    case None => c.text
  }

  predicate HasNeeded(columns: seq<string>) {
    forall k :: k in Needed ==> k in columns
  }

  /** The five `+=` of one row: house, chart, bolt and money-bag lines, then the rule. */
  function Block(columns: seq<string>, row: seq<Cell>, series: seq<Cell> -> string): string
    requires HasNeeded(columns) && |row| == |columns|
  {
    ([House] + AptCaption + AsciiOnly(CellOf(columns, row, "apartamento", series).text) + AptEnd)
    + ([Chart] + LeituraCaption + AsciiOnly(CellOf(columns, row, "leitura_atual", series).text) + LeituraEnd)
    + ([Bolt] + ConsumoCaption + AsciiOnly(CellOf(columns, row, "consumo_m3", series).text) + ConsumoEnd)
    + ([MoneyBag] + ValorCaption + ValorText(CellOf(columns, row, "valor_final_rs", series)) + ValorEnd)
    + (Rule + BlankLine)
  }

  /** The block of every row, in row order. */
  function Blocks(columns: seq<string>, rows: seq<seq<Cell>>, series: seq<Cell> -> string): (r: seq<string>)
    requires HasNeeded(columns)
    requires forall i :: 0 <= i < |rows| ==> |rows[i]| == |columns|
    ensures |r| == |rows|
  {
    seq(|rows|, i requires 0 <= i < |rows| => Block(columns, rows[i], series))
  }

  // ---------------------------------------------------------------------
  // remove_emojis
  // ---------------------------------------------------------------------

  /** The code points of the character class in `remove_emojis`. */
  predicate InEmojiRange(c: char) {
    var n := c as int;
    (0x1F600 <= n <= 0x1F64F) || (0x1F300 <= n <= 0x1F5FF) || (0x1F680 <= n <= 0x1F6FF) ||
    (0x1F1E0 <= n <= 0x1F1FF) || (0x2700 <= n <= 0x27BF) || (0x24C2 <= n <= 0x1F251)
  }

  predicate Kept(c: char) {
    !InEmojiRange(c)
  }

  /** `emoji_pattern.sub("", text)`: every run of characters in the ranges is deleted. */
  function RemoveEmojis(text: string): string {
    Filter(Kept, text)
  }

  /**
   * What `remove_emojis` promises: nothing in the ranges is left, every other
   * character keeps all its occurrences, the rest is in the original order,
   * and a second pass changes nothing.
   */
  lemma RemoveEmojisSpec(text: string, c: char)
    ensures forall i :: 0 <= i < |RemoveEmojis(text)| ==> !InEmojiRange(RemoveEmojis(text)[i])
    ensures multiset(RemoveEmojis(text))[c] == if InEmojiRange(c) then 0 else multiset(text)[c]
    ensures IsSubsequence(RemoveEmojis(text), text)
    ensures RemoveEmojis(RemoveEmojis(text)) == RemoveEmojis(text)
  {
    FilterMembers(Kept, text);
    FilterCounts(Kept, text, c);
    FilterIsSubsequence(Kept, text);
    FilterIdempotent(Kept, text);
  }

  lemma NoEmojiLeft(text: string, c: char)
    requires c in RemoveEmojis(text)
    ensures !InEmojiRange(c)
  {
    FilterMembers(Kept, text);
  }

  // ---------------------------------------------------------------------
  // The whole formatter
  // ---------------------------------------------------------------------

  /**
   * What `format_message_with_styles(data, target_date)` returns or raises;
   * `series` is how pandas prints the Series a duplicated column name selects.
   */
  function Format(data: Frame, targetDate: string, series: seq<Cell> -> string): Result<string, ReportError>
    requires Rectangular(data)
  {
    var columns := NormalizeColumns(data.columns);
    match FirstMissing(columns, 0)
    case Some(k) => Err(MissingColumn(k, columns))
    case None => Ok(RemoveEmojis(Message(columns, data.rows, targetDate, series)))
  }

  /**
   * The formatter refuses exactly the tables that lack a needed column after
   * renaming, and names the earliest such key with the renamed columns.
   */
  lemma FormatRejects(data: Frame, targetDate: string, series: seq<Cell> -> string)
    requires Rectangular(data)
    ensures var columns := NormalizeColumns(data.columns);
      Format(data, targetDate, series).Err? <==> exists k :: k in Needed && k !in columns
    ensures var columns := NormalizeColumns(data.columns);
      Format(data, targetDate, series).Err? ==>
        var e := Format(data, targetDate, series).error;
        && e.columns == columns && e.key !in columns
        && exists j :: 0 <= j < |Needed| && Needed[j] == e.key && forall i :: 0 <= i < j ==> Needed[i] in columns
  {
    var columns := NormalizeColumns(data.columns);
    assert Needed[0..] == Needed;
    FirstMissingIsFirst(columns, 0);
  }

  /** Every emoji the template adds, and the rule character, is in the ranges, so none reaches the reader. */
  lemma TemplateEmojisRemoved()
    ensures InEmojiRange(House) && InEmojiRange(Chart) && InEmojiRange(Bolt) && InEmojiRange(MoneyBag)
    ensures forall i :: 0 <= i < |Rule| ==> InEmojiRange(Rule[i])
    ensures !InEmojiRange(Intro[0])
  {
  }

  /** A report that is produced is the built message with the emojis removed. */
  lemma FormatValue(data: Frame, targetDate: string, series: seq<Cell> -> string)
    requires Rectangular(data)
    requires Format(data, targetDate, series).Ok?
    ensures var columns := NormalizeColumns(data.columns);
      && HasNeeded(columns)
      && Format(data, targetDate, series).value == RemoveEmojis(Message(columns, data.rows, targetDate, series))
  {
    assert Needed[0..] == Needed;
  }

  /** The delivered report holds no character of the ranges: no house, chart, bolt, money bag or rule. */
  lemma FormatHasNoEmoji(data: Frame, targetDate: string, series: seq<Cell> -> string, c: char)
    requires Rectangular(data)
    requires Format(data, targetDate, series).Ok?
    requires c in Format(data, targetDate, series).value
    ensures !InEmojiRange(c)
  {
    FormatValue(data, targetDate, series);
    NoEmojiLeft(Message(NormalizeColumns(data.columns), data.rows, targetDate, series), c);
  }

  /** The message as built, before emoji removal. */
  function Message(columns: seq<string>, rows: seq<seq<Cell>>, targetDate: string, series: seq<Cell> -> string): string
    requires HasNeeded(columns)
    requires forall i :: 0 <= i < |rows| ==> |rows[i]| == |columns|
  {
    Intro + Header(targetDate) + Concat(Blocks(columns, rows, series)) + Footer(targetDate, |rows|)
  }

  /** The nested loop that fills `col_map`: a key maps to itself exactly when some column has that name. */
  method FindColumns(columns: seq<string>) returns (colMap: map<string, Option<string>>)
    ensures forall k :: k in Needed ==> k in colMap && colMap[k] == if k in columns then Some(k) else None
  {
    colMap := map[Needed[0] := None, Needed[1] := None, Needed[2] := None, Needed[3] := None];
    for i := 0 to |columns|
      invariant forall k :: k in Needed ==> k in colMap && colMap[k] == if k in columns[..i] then Some(k) else None
    {
      var col := columns[i];
      assert columns[..i + 1] == columns[..i] + [col];
      for j := 0 to |Needed|
        invariant forall k :: k in Needed ==> k in colMap
        invariant forall jj :: 0 <= jj < j ==>
          colMap[Needed[jj]] == if Needed[jj] in columns[..i + 1] then Some(Needed[jj]) else None
        invariant forall jj :: j <= jj < |Needed| ==>
          colMap[Needed[jj]] == if Needed[jj] in columns[..i] then Some(Needed[jj]) else None
      {
        var key := Needed[j];
        if col == key {
          colMap := colMap[key := Some(col)];
        }
      }
    }
    assert columns[..|columns|] == columns;
  }

  lemma AppendFive(a: string, l1: string, l2: string, l3: string, l4: string, l5: string)
    ensures a + l1 + l2 + l3 + l4 + l5 == a + (l1 + l2 + l3 + l4 + l5)
  {
  }

  /** The check of `col_map`: the first needed key, in order, whose entry is still None. */
  method CheckColumns(columns: seq<string>, colMap: map<string, Option<string>>) returns (missing: Option<string>)
    requires forall k :: k in Needed ==> k in colMap && colMap[k] == if k in columns then Some(k) else None
    ensures missing == FirstMissing(columns, 0)
  {
    for j := 0 to |Needed|
      invariant FirstMissing(columns, 0) == FirstMissing(columns, j)
    {
      var key := Needed[j];
      if colMap[key].None? {
        return Some(key);
      }
    }
    return None;
  }

  /** The loop body: the five lines of one row appended to the message. */
  method AppendRow(message: string, columns: seq<string>, row: seq<Cell>, series: seq<Cell> -> string) returns (next: string)
    requires HasNeeded(columns) && |row| == |columns|
    ensures next == message + Block(columns, row, series)
  {
    var apt := AsciiOnly(CellOf(columns, row, "apartamento", series).text);
    var leitura := AsciiOnly(CellOf(columns, row, "leitura_atual", series).text);
    var consumo := AsciiOnly(CellOf(columns, row, "consumo_m3", series).text);
    var valor := ValorText(CellOf(columns, row, "valor_final_rs", series));
    next := message + ([House] + AptCaption + apt + AptEnd);
    next := next + ([Chart] + LeituraCaption + leitura + LeituraEnd);
    next := next + ([Bolt] + ConsumoCaption + consumo + ConsumoEnd);
    next := next + ([MoneyBag] + ValorCaption + valor + ValorEnd);
    next := next + (Rule + BlankLine);
    AppendFive(message, [House] + AptCaption + apt + AptEnd, [Chart] + LeituraCaption + leitura + LeituraEnd,
      [Bolt] + ConsumoCaption + consumo + ConsumoEnd, [MoneyBag] + ValorCaption + valor + ValorEnd, Rule + BlankLine);
  }

  /** Appending the next piece extends the concatenated prefix by one. */
  lemma AppendPiece(start: string, parts: seq<string>, i: nat, message: string, next: string)
    requires i < |parts|
    requires message == start + Concat(parts[..i]) && next == message + parts[i]
    ensures next == start + Concat(parts[..i + 1])
  {
    ConcatSnoc(parts, i);
    AppendAssoc(start, Concat(parts[..i]), parts[i]);
  }

  /** The `for _, row in data.iterrows()` loop: the block of each row appended in turn. */
  method AppendRows(start: string, columns: seq<string>, rows: seq<seq<Cell>>, series: seq<Cell> -> string) returns (message: string)
    requires HasNeeded(columns)
    requires forall i :: 0 <= i < |rows| ==> |rows[i]| == |columns|
    ensures message == start + Concat(Blocks(columns, rows, series))
  {
    message := start;
    for i := 0 to |rows|
      invariant message == start + Concat(Blocks(columns, rows, series)[..i])
    {
      var next := AppendRow(message, columns, rows[i], series);
      AppendPiece(start, Blocks(columns, rows, series), i, message, next);
      message := next;
    }
    assert Blocks(columns, rows, series)[..|rows|] == Blocks(columns, rows, series);
  }

  /** The two footer `+=`. */
  method AppendFooter(body: string, targetDate: string, count: nat) returns (message: string)
    ensures message == body + Footer(targetDate, count)
  {
    message := body + (DateLead + targetDate + DateEnd);
    message := message + (TotalLead + NatToString(count) + TotalEnd);
    AppendAssoc(body, DateLead + targetDate + DateEnd, TotalLead + NatToString(count) + TotalEnd);
  }

  /** The formatter: rename, fill `col_map`, check it, append block after block, remove emojis. */
  method FormatMessageWithStyles(data: Frame, targetDate: string, series: seq<Cell> -> string) returns (r: Result<string, ReportError>)
    requires Rectangular(data)
    ensures r == Format(data, targetDate, series)
  {
    var columns := NormalizeColumns(data.columns);
    var colMap := FindColumns(columns);
    var missing := CheckColumns(columns, colMap);
    if missing.Some? {
      return Err(MissingColumn(missing.value, columns));
    }
    var message := Header(targetDate);
    message := Intro + message;
    message := AppendRows(message, columns, data.rows, series);
    message := AppendFooter(message, targetDate, |data.rows|);
    r := Ok(RemoveEmojis(message));
  }

  // ---------------------------------------------------------------------
  // What the reader sees
  // ---------------------------------------------------------------------

  /** The money column once emojis are gone: an amount is untouched. */
  function ShownValor(c: Cell): string {
    match c.number
    case Some(a) => Valor(a)
    case None => RemoveEmojis(c.text)
  }

  /** Reference layout of one row in the delivered text: four captioned lines and a blank line. */
  function ShownBlock(columns: seq<string>, row: seq<Cell>, series: seq<Cell> -> string): string
    requires HasNeeded(columns) && |row| == |columns|
  {
    (AptCaption + AsciiOnly(CellOf(columns, row, "apartamento", series).text) + AptEnd)
    + (LeituraCaption + AsciiOnly(CellOf(columns, row, "leitura_atual", series).text) + LeituraEnd)
    + (ConsumoCaption + AsciiOnly(CellOf(columns, row, "consumo_m3", series).text) + ConsumoEnd)
    + (ValorCaption + ShownValor(CellOf(columns, row, "valor_final_rs", series)) + ValorEnd)
    + BlankLine
  }

  function ShownBlocks(columns: seq<string>, rows: seq<seq<Cell>>, series: seq<Cell> -> string): (r: seq<string>)
    requires HasNeeded(columns)
    requires forall i :: 0 <= i < |rows| ==> |rows[i]| == |columns|
    ensures |r| == |rows|
  {
    seq(|rows|, i requires 0 <= i < |rows| => ShownBlock(columns, rows[i], series))
  }

  lemma RemoveAppend(a: string, b: string)
    ensures RemoveEmojis(a + b) == RemoveEmojis(a) + RemoveEmojis(b)
  {
    FilterAppend(Kept, a, b);
  }

  lemma RemoveKept(s: string)
    requires forall i :: 0 <= i < |s| ==> Kept(s[i])
    ensures RemoveEmojis(s) == s
  {
    FilterKeepsPassing(Kept, s);
  }

  lemma RemoveOutside(s: string)
    requires forall i :: 0 <= i < |s| ==> OutsideRanges(s[i])
    ensures RemoveEmojis(s) == s
  {
    RemoveKept(s);
  }

  lemma RemoveAscii(s: string)
    requires AllAscii(s)
    ensures RemoveEmojis(s) == s
  {
    RemoveKept(s);
  }

  lemma {:induction false} RemoveAllEmojis(s: string)
    requires forall i :: 0 <= i < |s| ==> InEmojiRange(s[i])
    ensures RemoveEmojis(s) == []
  {
    if s != [] {
      RemoveAllEmojis(s[1..]);
    }
  }

  /** A labelled line: the leading emoji goes, the ASCII caption and ending stay, the value is cleaned. */
  lemma RemoveLine(e: char, caption: string, value: string, ending: string)
    requires InEmojiRange(e) && AllAscii(caption) && AllAscii(ending)
    ensures RemoveEmojis([e] + caption + value + ending) == caption + RemoveEmojis(value) + ending
  {
    RemoveAppend([e] + caption + value, ending);
    RemoveAppend([e] + caption, value);
    RemoveAppend([e], caption);
    RemoveAscii(caption);
    RemoveAscii(ending);
  }

  /** A labelled line whose value went through the ASCII filter. */
  lemma RemoveAsciiLine(e: char, caption: string, text: string, ending: string)
    requires InEmojiRange(e) && AllAscii(caption) && AllAscii(ending)
    ensures RemoveEmojis([e] + caption + AsciiOnly(text) + ending) == caption + AsciiOnly(text) + ending
  {
    RemoveLine(e, caption, AsciiOnly(text), ending);
    AsciiOnlySpec(text);
    RemoveAscii(AsciiOnly(text));
  }

  lemma RemoveFive(l1: string, l2: string, l3: string, l4: string, l5: string)
    ensures RemoveEmojis(l1 + l2 + l3 + l4 + l5)
      == RemoveEmojis(l1) + RemoveEmojis(l2) + RemoveEmojis(l3) + RemoveEmojis(l4) + RemoveEmojis(l5)
  {
    RemoveAppend(l1 + l2 + l3 + l4, l5);
    RemoveAppend(l1 + l2 + l3, l4);
    RemoveAppend(l1 + l2, l3);
    RemoveAppend(l1, l2);
  }

  lemma RemoveRuleLine()
    ensures RemoveEmojis(Rule + BlankLine) == BlankLine
  {
    RemoveAppend(Rule, BlankLine);
    RemoveAllEmojis(Rule);
    RemoveAscii(BlankLine);
  }

  lemma AllAsciiAppend(a: string, b: string)
    requires AllAscii(a) && AllAscii(b)
    ensures AllAscii(a + b)
  {
  }

  /** Four ASCII pieces without the placeholder make such a text. */
  lemma AsciiFour(a: string, b: string, c: string, d: string)
    requires AllAscii(a) && AllAscii(b) && AllAscii(c) && AllAscii(d)
    requires 'X' !in a && 'X' !in b && 'X' !in c && 'X' !in d
    ensures AllAscii(a + b + c + d) && 'X' !in a + b + c + d
  {
  }

  lemma Fixed2IsAscii(a: Amount)
    ensures AllAscii(Fixed2(a)) && 'X' !in Fixed2(a)
  {
    if a.Finite? {
      Fixed2FiniteIsAscii(a.cents);
    }
  }

  lemma Fixed2FiniteIsAscii(c: int)
    ensures AllAscii(Fixed2(Finite(c))) && 'X' !in Fixed2(Finite(c))
  {
    var m := if c < 0 then -c else c;
    GroupedIsAscii(m / 100);
    NoPlaceholderInGrouped(m / 100);
    AsciiFour(Sign(c < 0), Grouped(m / 100, ','), ".", Pad2(m % 100));
  }

  /** The money text is plain ASCII. */
  lemma ValorIsAscii(a: Amount)
    ensures AllAscii(Valor(a))
  {
    var s := "R$ " + Fixed2(a);
    Fixed2IsAscii(a);
    AllAsciiAppend("R$ ", Fixed2(a));
    SwapIsSwapEach(s);
  }

  lemma {:induction false} GroupedIsAscii(n: nat)
    ensures AllAscii(Grouped(n, ','))
    decreases n
  {
    if n >= 1000 {
      GroupedIsAscii(n / 1000);
    }
  }

  lemma ShownValorIsClean(c: Cell)
    ensures RemoveEmojis(ValorText(c)) == ShownValor(c)
  {
    if c.number.Some? {
      ValorIsAscii(c.number.value);
      RemoveAscii(Valor(c.number.value));
    }
  }

  /** Emoji removal turns a block into the reference layout of its row. */
  lemma RemoveEmojisBlock(columns: seq<string>, row: seq<Cell>, series: seq<Cell> -> string)
    requires HasNeeded(columns) && |row| == |columns|
    ensures RemoveEmojis(Block(columns, row, series)) == ShownBlock(columns, row, series)
  {
    var apt := CellOf(columns, row, "apartamento", series).text;
    var leitura := CellOf(columns, row, "leitura_atual", series).text;
    var consumo := CellOf(columns, row, "consumo_m3", series).text;
    var cell := CellOf(columns, row, "valor_final_rs", series);
    RemoveFive([House] + AptCaption + AsciiOnly(apt) + AptEnd,
      [Chart] + LeituraCaption + AsciiOnly(leitura) + LeituraEnd,
      [Bolt] + ConsumoCaption + AsciiOnly(consumo) + ConsumoEnd,
      [MoneyBag] + ValorCaption + ValorText(cell) + ValorEnd,
      Rule + BlankLine);
    RemoveAsciiLine(House, AptCaption, apt, AptEnd);
    RemoveAsciiLine(Chart, LeituraCaption, leitura, LeituraEnd);
    RemoveAsciiLine(Bolt, ConsumoCaption, consumo, ConsumoEnd);
    RemoveLine(MoneyBag, ValorCaption, ValorText(cell), ValorEnd);
    ShownValorIsClean(cell);
    RemoveRuleLine();
  }

  /** Emoji removal distributes over the pieces of a concatenation. */
  lemma {:induction false} RemoveConcat(parts: seq<string>, shown: seq<string>)
    requires |parts| == |shown|
    requires forall i :: 0 <= i < |parts| ==> RemoveEmojis(parts[i]) == shown[i]
    ensures RemoveEmojis(Concat(parts)) == Concat(shown)
  {
    if |parts| > 0 {
      var k := |parts| - 1;
      RemoveConcat(parts[..k], shown[..k]);
      RemoveAppend(Concat(parts[..k]), parts[k]);
    }
  }

  lemma RemoveEmojisBlocks(columns: seq<string>, rows: seq<seq<Cell>>, series: seq<Cell> -> string)
    requires HasNeeded(columns)
    requires forall i :: 0 <= i < |rows| ==> |rows[i]| == |columns|
    ensures RemoveEmojis(Concat(Blocks(columns, rows, series))) == Concat(ShownBlocks(columns, rows, series))
  {
    var parts := Blocks(columns, rows, series);
    var shown := ShownBlocks(columns, rows, series);
    forall i | 0 <= i < |parts|
      ensures RemoveEmojis(parts[i]) == shown[i]
    {
      RemoveEmojisBlock(columns, rows[i], series);
    }
    RemoveConcat(parts, shown);
  }

  lemma IntroSurvives()
    ensures RemoveEmojis(Intro) == Intro
  {
    RemoveOutside(Intro);
  }

  /** Emoji removal between two ASCII pieces touches only the middle. */
  lemma RemoveBetween(lead: string, middle: string, end: string)
    requires AllAscii(lead) && AllAscii(end)
    ensures RemoveEmojis(lead + middle + end) == lead + RemoveEmojis(middle) + end
  {
    RemoveAppend(lead + middle, end);
    RemoveAppend(lead, middle);
    RemoveAscii(lead);
    RemoveAscii(end);
  }

  lemma RemoveFooter(targetDate: string, n: nat)
    ensures RemoveEmojis(Footer(targetDate, n))
      == (DateLead + RemoveEmojis(targetDate) + DateEnd) + (TotalLead + NatToString(n) + TotalEnd)
  {
    RemoveAppend(DateLead + targetDate + DateEnd, TotalLead + NatToString(n) + TotalEnd);
    RemoveBetween(DateLead, targetDate, DateEnd);
    RemoveBetween(TotalLead, NatToString(n), TotalEnd);
    RemoveAscii(NatToString(n));
  }

  /**
   * The delivered text: the introduction (its robot emoji is outside every
   * range), the header, one reference block per row in row order, and the
   * footer, whose count is the number of rows. The target date is cleaned
   * of emojis but not filtered to ASCII.
   */
  lemma FormatLayout(data: Frame, targetDate: string, series: seq<Cell> -> string)
    requires Rectangular(data)
    requires Format(data, targetDate, series).Ok?
    ensures var columns := NormalizeColumns(data.columns);
      && HasNeeded(columns)
      && Format(data, targetDate, series).value == Shown(columns, data.rows, targetDate, series)
  {
    FormatValue(data, targetDate, series);
    RemoveEmojisMessage(NormalizeColumns(data.columns), data.rows, targetDate, series);
  }

  /**
   * The delivered text for given columns and rows: the introduction, the
   * header with the cleaned date, one reference block per row in row order,
   * the date line and the count of rows.
   */
  function Shown(columns: seq<string>, rows: seq<seq<Cell>>, targetDate: string, series: seq<Cell> -> string): string
    requires HasNeeded(columns)
    requires forall i :: 0 <= i < |rows| ==> |rows[i]| == |columns|
  {
    Intro + (HeaderLead + RemoveEmojis(targetDate) + HeaderEnd)
    + Concat(ShownBlocks(columns, rows, series))
    + ((DateLead + RemoveEmojis(targetDate) + DateEnd) + (TotalLead + NatToString(|rows|) + TotalEnd))
  }

  lemma RemoveEmojisMessage(columns: seq<string>, rows: seq<seq<Cell>>, targetDate: string, series: seq<Cell> -> string)
    requires HasNeeded(columns)
    requires forall i :: 0 <= i < |rows| ==> |rows[i]| == |columns|
    ensures RemoveEmojis(Message(columns, rows, targetDate, series)) == Shown(columns, rows, targetDate, series)
  {
    RemoveFour(Intro, Header(targetDate), Concat(Blocks(columns, rows, series)), Footer(targetDate, |rows|));
    IntroSurvives();
    RemoveBetween(HeaderLead, targetDate, HeaderEnd);
    RemoveEmojisBlocks(columns, rows, series);
    RemoveFooter(targetDate, |rows|);
  }

  lemma RemoveFour(a: string, b: string, c: string, d: string)
    ensures RemoveEmojis(a + b + c + d) == RemoveEmojis(a) + RemoveEmojis(b) + RemoveEmojis(c) + RemoveEmojis(d)
  {
    RemoveAppend(a + b + c, d);
    RemoveAppend(a + b, c);
    RemoveAppend(a, b);
  }
}
