/**
 The CSV writer (`src/lib/csv.ts`) against the grammar in section 2 of RFC 4180.

 The partner of the writer is a parser for that grammar, including its optional line break after the last
 record. Reading what was written gives back the cell texts, and it is shown for exactly which tables.
 The grammar's TEXTDATA is taken as every character but the comma, the quote, CR and LF.
 */
module Csv {
  import opened Wrappers

  datatype Column = Column(key: string, header: string)

  // ---------------------------------------------------------------- the writer

  predicate Dangerous(text: string) {
    text != "" && (text[0] == '=' || text[0] == '+' || text[0] == '-' || text[0] == '@')
  }

  function Neutralise(text: string): (r: string)
    ensures r == "" || r[0] !in "=+-@"
    ensures r == if text == "" || text[0] !in "=+-@" then text else "'" + text
  {
    if Dangerous(text) then "'" + text else text
  }

  /** A text with none of these stands in a cell as it is. */
  predicate Unquoted(text: string) {
    forall i | 0 <= i < |text| :: text[i] != '"' && text[i] != ',' && text[i] != '\r' && text[i] != '\n'
  }

  function Doubled(text: string): string {
    if text == "" then ""
    else (if text[0] == '"' then "\"\"" else [text[0]]) + Doubled(text[1..])
  }

  /** A cell, `None` where the row has nothing. */
  function EscapeCell(value: Option<string>): string {
    match value
    case None => ""
    case Some(v) =>
      var text := Neutralise(v);
      if Unquoted(text) then text else "\"" + Doubled(text) + "\""
  }

  function Join(parts: seq<string>, separator: string): string {
    if parts == [] then ""
    else if |parts| == 1 then parts[0]
    else parts[0] + separator + Join(parts[1..], separator)
  }

  function EscapedCells(row: seq<Option<string>>): (r: seq<string>)
    ensures |r| == |row| && forall i | 0 <= i < |row| :: r[i] == EscapeCell(row[i])
  {
    seq(|row|, i requires 0 <= i < |row| => EscapeCell(row[i]))
  }

  function CsvLine(row: seq<Option<string>>): string {
    Join(EscapedCells(row), ",")
  }

  function CsvLines(table: seq<seq<Option<string>>>): (r: seq<string>)
    ensures |r| == |table| && forall i | 0 <= i < |table| :: r[i] == CsvLine(table[i])
  {
    seq(|table|, i requires 0 <= i < |table| => CsvLine(table[i]))
  }

  function Printed(table: seq<seq<Option<string>>>): string {
    Join(CsvLines(table), "\r\n")
  }

  function HeaderCells(columns: seq<Column>): (r: seq<Option<string>>)
    ensures |r| == |columns| && forall i | 0 <= i < |columns| :: r[i] == Some(columns[i].header)
  {
    seq(|columns|, i requires 0 <= i < |columns| => Some(columns[i].header))
  }

  function RowCells(row: map<string, string>, columns: seq<Column>): (r: seq<Option<string>>)
    ensures |r| == |columns|
    ensures forall i | 0 <= i < |columns| ::
      r[i] == if columns[i].key in row then Some(row[columns[i].key]) else None
  {
    seq(|columns|, i requires 0 <= i < |columns| => if columns[i].key in row then Some(row[columns[i].key]) else None)
  }

  /** The header and then the rows, as cells. */
  function TableOf(rows: seq<map<string, string>>, columns: seq<Column>): (r: seq<seq<Option<string>>>)
    ensures |r| == |rows| + 1 && r[0] == HeaderCells(columns)
    ensures forall i | 0 <= i < |rows| :: r[i + 1] == RowCells(rows[i], columns)
  {
    [HeaderCells(columns)] + seq(|rows|, i requires 0 <= i < |rows| => RowCells(rows[i], columns))
  }

  method ToCsv(rows: seq<map<string, string>>, columns: seq<Column>) returns (r: string)
    ensures r == Printed(TableOf(rows, columns))
  {
    var lines := [CsvLine(HeaderCells(columns))];
    for i := 0 to |rows|
      invariant |lines| == i + 1 && lines[0] == CsvLine(HeaderCells(columns))
      invariant forall k | 0 <= k < i :: lines[k + 1] == CsvLine(RowCells(rows[k], columns))
    {
      lines := lines + [CsvLine(RowCells(rows[i], columns))];
    }
    assert lines == CsvLines(TableOf(rows, columns)) by {
      forall k | 0 <= k < |lines| ensures lines[k] == CsvLine(TableOf(rows, columns)[k]) {
        assert k > 0 ==> lines[k - 1 + 1] == CsvLine(RowCells(rows[k - 1], columns));
        assert k > 0 ==> TableOf(rows, columns)[k - 1 + 1] == RowCells(rows[k - 1], columns);
      }
    }
    r := Join(lines, "\r\n");
  }

  // ---------------------------------------------------------------- the reader of RFC 4180, section 2

  datatype Field = Field(text: string, rest: string)

  datatype Record = Record(fields: seq<string>, rest: string)

  /** TEXTDATA. */
  predicate Plain(c: char) { c !in "\",\r\n" }

  function BareField(s: string): (f: Field)
    ensures |f.rest| <= |s|
  {
    if s == "" || !Plain(s[0]) then Field("", s)
    else
      var f := BareField(s[1..]);
      Field([s[0]] + f.text, f.rest)
  }

  /** The rest of a field after its opening quote. */
  function QuotedField(s: string): (f: Option<Field>)
    ensures f.Some? ==> |f.value.rest| < |s|
  {
    if s == "" then None
    else if s[0] != '"' then
      var f := QuotedField(s[1..]);
      if f.None? then None else Some(Field([s[0]] + f.value.text, f.value.rest))
    else if |s| > 1 && s[1] == '"' then
      var f := QuotedField(s[2..]);
      if f.None? then None else Some(Field("\"" + f.value.text, f.value.rest))
    else Some(Field("", s[1..]))
  }

  function ParseField(s: string): (f: Option<Field>)
    ensures f.Some? ==> |f.value.rest| <= |s|
  {
    if s != "" && s[0] == '"' then QuotedField(s[1..]) else Some(BareField(s))
  }

  function ParseRecord(s: string): (r: Option<Record>)
    ensures r.Some? ==> |r.value.rest| <= |s|
    decreases |s|
  {
    var f := ParseField(s);
    if f.None? then None
    else if f.value.rest != "" && f.value.rest[0] == ',' then
      var r := ParseRecord(f.value.rest[1..]);
      if r.None? then None else Some(Record([f.value.text] + r.value.fields, r.value.rest))
    else Some(Record([f.value.text], f.value.rest))
  }

  function ParseFile(s: string): Option<seq<seq<string>>>
    decreases |s|
  {
    var r := ParseRecord(s);
    if r.None? then None
    else if r.value.rest == "" || r.value.rest == "\r\n" then Some([r.value.fields])
    else if |r.value.rest| > 2 && r.value.rest[..2] == "\r\n" then
      var more := ParseFile(r.value.rest[2..]);
      if more.None? then None else Some([r.value.fields] + more.value)
    else None
  }

  // ---------------------------------------------------------------- reading a written field, line, file

  /** What a cell says once written: nothing for nothing, and never a formula. */
  function CellText(value: Option<string>): (r: string)
    ensures !Dangerous(r)
  {
    if value.None? then "" else Neutralise(value.value)
  }

  function Texts(row: seq<Option<string>>): (r: seq<string>)
    ensures |r| == |row| && forall i | 0 <= i < |row| :: r[i] == CellText(row[i])
  {
    seq(|row|, i requires 0 <= i < |row| => CellText(row[i]))
  }

  function AllTexts(table: seq<seq<Option<string>>>): (r: seq<seq<string>>)
    ensures |r| == |table| && forall i | 0 <= i < |table| :: r[i] == Texts(table[i])
  {
    seq(|table|, i requires 0 <= i < |table| => Texts(table[i]))
  }

  lemma {:induction false} ReadBare(text: string, tail: string)
    requires Unquoted(text) && (tail == "" || !Plain(tail[0]))
    ensures BareField(text + tail) == Field(text, tail)
  {
    if text == "" {
      assert text + tail == tail;
    } else {
      assert (text + tail)[1..] == text[1..] + tail;
      ReadBare(text[1..], tail);
      assert [text[0]] + text[1..] == text;
    }
  }

  lemma {:induction false} ReadQuoted(text: string, tail: string)
    requires tail == "" || tail[0] != '"'
    ensures QuotedField(Doubled(text) + "\"" + tail) == Some(Field(text, tail))
  {
    var s := Doubled(text) + "\"" + tail;
    if text == "" {
      assert s == "\"" + tail;
      assert s[1..] == tail;
    } else {
      ReadQuoted(text[1..], tail);
      var rest := Doubled(text[1..]) + "\"" + tail;
      assert [text[0]] + text[1..] == text;
      if text[0] == '"' {
        assert s == "\"\"" + rest;
        assert s[2..] == rest;
      } else {
        assert s == [text[0]] + rest;
        assert s[1..] == rest;
      }
    }
  }

  lemma {:induction false} ReadBareField(text: string, tail: string)
    requires Unquoted(text) && (tail == "" || tail[0] == ',' || tail[0] == '\r')
    ensures ParseField(text + tail) == Some(Field(text, tail))
  {
    ReadBare(text, tail);
    if text == "" {
      assert text + tail == tail;
    } else {
      assert (text + tail)[0] == text[0];
    }
  }

  lemma {:induction false} ReadQuotedField(text: string, tail: string)
    requires tail == "" || tail[0] != '"'
    ensures ParseField("\"" + Doubled(text) + "\"" + tail) == Some(Field(text, tail))
  {
    ReadQuoted(text, tail);
    var s := "\"" + Doubled(text) + "\"" + tail;
    assert s[1..] == Doubled(text) + "\"" + tail;
  }

  lemma {:induction false} ReadCell(value: Option<string>, tail: string)
    requires tail == "" || tail[0] == ',' || tail[0] == '\r'
    ensures ParseField(EscapeCell(value) + tail) == Some(Field(CellText(value), tail))
  {
    if Unquoted(CellText(value)) {
      ReadBareField(CellText(value), tail);
    } else {
      ReadQuotedField(CellText(value), tail);
    }
  }

  lemma {:induction false} JoinMore(parts: seq<string>, separator: string)
    requires |parts| > 1
    ensures Join(parts, separator) == parts[0] + separator + Join(parts[1..], separator)
  {}

  lemma {:induction false} RecordStep(s: string, text: string, rest: string, record: Record)
    requires ParseField(s) == Some(Field(text, "," + rest)) && ParseRecord(rest) == Some(record)
    ensures ParseRecord(s) == Some(Record([text] + record.fields, record.rest))
  {
    assert ("," + rest)[1..] == rest;
  }

  lemma {:induction false} RecordEnds(s: string, text: string, tail: string)
    requires ParseField(s) == Some(Field(text, tail)) && (tail == "" || tail[0] != ',')
    ensures ParseRecord(s) == Some(Record([text], tail))
  {}

  lemma {:induction false} FileStep(s: string, fields: seq<string>, rest: string, more: seq<seq<string>>)
    requires ParseRecord(s) == Some(Record(fields, "\r\n" + rest)) && rest != "" && ParseFile(rest) == Some(more)
    ensures ParseFile(s) == Some([fields] + more)
  {
    assert ("\r\n" + rest)[..2] == "\r\n" && ("\r\n" + rest)[2..] == rest;
  }

  lemma {:induction false} FileEnds(s: string, fields: seq<string>, rest: string)
    requires ParseRecord(s) == Some(Record(fields, rest)) && (rest == "" || rest == "\r\n")
    ensures ParseFile(s) == Some([fields])
  {}

  lemma {:induction false} LineMore(row: seq<Option<string>>)
    requires |row| > 1
    ensures CsvLine(row) == EscapeCell(row[0]) + "," + CsvLine(row[1..])
    ensures Texts(row) == [CellText(row[0])] + Texts(row[1..])
  {
    assert EscapedCells(row)[1..] == EscapedCells(row[1..]);
    JoinMore(EscapedCells(row), ",");
  }

  lemma {:induction false} ReadLine(row: seq<Option<string>>, tail: string)
    requires row != [] && (tail == "" || tail[0] == '\r')
    ensures ParseRecord(CsvLine(row) + tail) == Some(Record(Texts(row), tail))
  {
    if |row| == 1 {
      ReadCell(row[0], tail);
      assert CsvLine(row) == EscapeCell(row[0]);
      RecordEnds(CsvLine(row) + tail, CellText(row[0]), tail);
      assert Texts(row) == [CellText(row[0])];
    } else {
      ReadLine(row[1..], tail);
      ReadLongLine(row, tail, CsvLine(row[1..]) + tail);
    }
  }

  lemma {:induction false} Regroup(a: string, b: string, c: string, tail: string)
    ensures (a + b + c) + tail == a + (b + (c + tail))
  {}

  lemma {:induction false} ReadLongLine(row: seq<Option<string>>, tail: string, rest: string)
    requires |row| > 1 && rest == CsvLine(row[1..]) + tail
    requires ParseRecord(rest) == Some(Record(Texts(row[1..]), tail))
    ensures ParseRecord(CsvLine(row) + tail) == Some(Record(Texts(row), tail))
  {
    var cell, text := EscapeCell(row[0]), CellText(row[0]);
    var s := CsvLine(row) + tail;
    LineMore(row);
    Regroup(cell, ",", CsvLine(row[1..]), tail);
    assert ParseField(s) == Some(Field(text, "," + rest)) by { ReadCell(row[0], "," + rest); }
    RecordStep(s, text, rest, Record(Texts(row[1..]), tail));
  }

  lemma {:induction false} CellIsEmpty(value: Option<string>)
    ensures EscapeCell(value) == "" <==> CellText(value) == ""
  {}

  lemma {:induction false} LineIsEmpty(row: seq<Option<string>>)
    requires row != []
    ensures CsvLine(row) == "" <==> Texts(row) == [""]
  {
    CellIsEmpty(row[0]);
    if |row| == 1 {
      assert CsvLine(row) == EscapeCell(row[0]);
    } else {
      JoinMore(EscapedCells(row), ",");
      assert |CsvLine(row)| >= 1;
    }
  }

  /** The last line is written as nothing at all, after another. */
  predicate EndsUnseen(table: seq<seq<Option<string>>>) {
    |table| > 1 && Texts(table[|table| - 1]) == [""]
  }

  function Seen(table: seq<seq<Option<string>>>): seq<seq<Option<string>>> {
    if EndsUnseen(table) then table[..|table| - 1] else table
  }

  lemma {:induction false} PrintedMore(table: seq<seq<Option<string>>>)
    requires |table| > 1
    ensures Printed(table) == CsvLine(table[0]) + ("\r\n" + Printed(table[1..]))
  {
    assert CsvLines(table)[1..] == CsvLines(table[1..]);
    JoinMore(CsvLines(table), "\r\n");
  }

  lemma {:induction false} PrintedIsEmpty(table: seq<seq<Option<string>>>)
    requires table != [] && forall i | 0 <= i < |table| :: table[i] != []
    ensures Printed(table) == "" <==> |table| == 1 && Texts(table[0]) == [""]
  {
    LineIsEmpty(table[0]);
    if |table| == 1 {
      assert Printed(table) == CsvLine(table[0]);
    } else {
      PrintedMore(table);
      assert |Printed(table)| >= 2;
    }
  }

  lemma {:induction false} SeenMore(table: seq<seq<Option<string>>>)
    requires |table| > 1
    ensures |table| == 2 && Texts(table[1]) == [""] ==> Seen(table) == [table[0]]
    ensures !(|table| == 2 && Texts(table[1]) == [""]) ==> Seen(table) == [table[0]] + Seen(table[1..])
  {
    var more := table[1..];
    assert more[|more| - 1] == table[|table| - 1];
  }

  lemma {:induction false} AllTextsMore(row: seq<Option<string>>, more: seq<seq<Option<string>>>)
    ensures AllTexts([row] + more) == [Texts(row)] + AllTexts(more)
  {}

  lemma {:induction false} ReadLongFile(table: seq<seq<Option<string>>>)
    requires |table| > 1 && forall i | 0 <= i < |table| :: table[i] != []
    requires ParseFile(Printed(table[1..])) == Some(AllTexts(Seen(table[1..])))
    ensures ParseFile(Printed(table)) == Some(AllTexts(Seen(table)))
  {
    var more := table[1..];
    var s, row := Printed(table), Texts(table[0]);
    PrintedIsEmpty(more);
    SeenMore(table);
    assert ParseRecord(s) == Some(Record(row, "\r\n" + Printed(more))) by {
      PrintedMore(table);
      ReadLine(table[0], "\r\n" + Printed(more));
    }
    if Printed(more) == "" {
      FileEnds(s, row, "\r\n" + Printed(more));
      assert AllTexts(Seen(table)) == [row];
    } else {
      FileStep(s, row, Printed(more), AllTexts(Seen(more)));
      AllTextsMore(table[0], Seen(more));
    }
  }

  lemma {:induction false} ReadFile(table: seq<seq<Option<string>>>)
    requires table != [] && forall i | 0 <= i < |table| :: table[i] != []
    ensures ParseFile(Printed(table)) == Some(AllTexts(Seen(table)))
  {
    if |table| == 1 {
      assert Printed(table) == CsvLine(table[0]);
      ReadLine(table[0], "");
      assert CsvLine(table[0]) + "" == CsvLine(table[0]);
      FileEnds(Printed(table), Texts(table[0]), "");
      assert AllTexts(table) == [Texts(table[0])];
    } else {
      ReadFile(table[1..]);
      ReadLongFile(table);
    }
  }

  /**
   Reading back what was written gives the neutralised text of every cell of every row, if and only if
   the last line is not an empty cell on its own after another line: only then does its line break read
   as the optional one that ends the file.
   */
  lemma {:induction false} RoundTripExactly(table: seq<seq<Option<string>>>)
    requires table != [] && forall i | 0 <= i < |table| :: table[i] != []
    ensures ParseFile(Printed(table)) == Some(AllTexts(table)) <==> (|table| == 1 || Texts(table[|table| - 1]) != [""])
    ensures |table| > 1 && Texts(table[|table| - 1]) == [""] ==>
      ParseFile(Printed(table)) == Some(AllTexts(table[..|table| - 1]))
  {
    ReadFile(table);
    assert |AllTexts(Seen(table))| == |Seen(table)|;
  }

  /** A report with two columns or more is always read back whole. */
  lemma {:induction false} ReportsRoundTrip(rows: seq<map<string, string>>, columns: seq<Column>)
    requires |columns| >= 2
    ensures ParseFile(Printed(TableOf(rows, columns))) == Some(AllTexts(TableOf(rows, columns)))
  {
    var table := TableOf(rows, columns);
    forall i | 0 <= i < |table| ensures |table[i]| == |columns| {
      assert i > 0 ==> table[i - 1 + 1] == RowCells(rows[i - 1], columns);
    }
    RoundTripExactly(table);
    assert |Texts(table[|table| - 1])| == |columns|;
  }

  /** A report of one column loses its last row, and only that, exactly when the row has nothing to say. */
  lemma {:induction false} OneColumnReports(rows: seq<map<string, string>>, column: Column)
    ensures var table := TableOf(rows, [column]);
      ParseFile(Printed(table)) == Some(AllTexts(table)) <==>
      (rows == [] || (column.key in rows[|rows| - 1] && rows[|rows| - 1][column.key] != ""))
  {
    var table := TableOf(rows, [column]);
    forall i | 0 <= i < |table| ensures |table[i]| == 1 {
      assert i > 0 ==> table[i - 1 + 1] == RowCells(rows[i - 1], [column]);
    }
    RoundTripExactly(table);
    if rows != [] {
      var last := rows[|rows| - 1];
      assert table[|rows| - 1 + 1] == RowCells(last, [column]);
      assert Texts(table[|table| - 1])[0] == CellText(if column.key in last then Some(last[column.key]) else None);
    }
  }

  /** A cell is quoted exactly when its text holds a comma, a quote or a line break, and absent values are empty. */
  lemma {:induction false} QuotedExactly(text: string)
    ensures EscapeCell(None) == ""
    ensures (EscapeCell(Some(text)) != "" && EscapeCell(Some(text))[0] == '"') <==>
      exists c :: c in text && c in "\",\r\n"
    ensures (forall c | c in text :: c !in "\",\r\n") ==> EscapeCell(Some(text)) == Neutralise(text)
  {
    var written := Neutralise(text);
    assert forall i | 0 <= i < |text| :: written[i + |written| - |text|] == text[i];
    assert forall i | 0 <= i < |written| :: written[i] == '\'' || written[i] in text;
  }

  /** Whatever the rows hold, no cell a spreadsheet reads back starts a formula. */
  lemma {:induction false} NoFormulaIsRead(table: seq<seq<Option<string>>>, i: nat, j: nat)
    requires table != [] && forall k | 0 <= k < |table| :: table[k] != []
    requires ParseFile(Printed(table)).Some?
    requires i < |ParseFile(Printed(table)).value| && j < |ParseFile(Printed(table)).value[i]|
    ensures var cell := ParseFile(Printed(table)).value[i][j]; cell == "" || cell[0] !in "=+-@"
  {
    ReadFile(table);
    assert ParseFile(Printed(table)).value[i] == Texts(Seen(table)[i]);
    assert Texts(Seen(table)[i])[j] == CellText(Seen(table)[i][j]);
  }

  /** Two texts are written alike only if they are the same, or one is the other's formula with its apostrophe. */
  lemma {:induction false} WrittenAlike(a: string, b: string)
    ensures Neutralise(a) == Neutralise(b) <==>
      a == b || (Dangerous(a) && b == "'" + a) || (Dangerous(b) && a == "'" + b)
  {
    if Dangerous(a) && Dangerous(b) {
      assert Neutralise(a)[1..] == a && Neutralise(b)[1..] == b;
    }
  }
}
