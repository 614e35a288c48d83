/** The CSV reader (core/imports/csv.ts) and a writer of section 2 of RFC 4180 that it inverts. */
module Csv {
  import opened Text

  type Row = seq<string>

  datatype State = State(rows: seq<Row>, row: Row, cell: string, quoted: bool)

  const START := State([], [], "", false)

  /** The scan from a state over the rest of the text. */
  function Scan(s: State, text: string): State
    decreases |text|
  {
    if text == "" then s
    else if s.quoted && text[0] == '"' && |text| > 1 && text[1] == '"' then Scan(s.(cell := s.cell + "\""), text[2..])
    else if s.quoted && text[0] == '"' then Scan(s.(quoted := false), text[1..])
    else if s.quoted then Scan(s.(cell := s.cell + [text[0]]), text[1..])
    else if text[0] == '"' then Scan(s.(quoted := true), text[1..])
    else if text[0] == ',' then Scan(s.(row := s.row + [s.cell], cell := ""), text[1..])
    else if text[0] == '\n' then Scan(EndRow(s), text[1..])
    else if text[0] == '\r' then Scan(s, text[1..])
    else Scan(s.(cell := s.cell + [text[0]]), text[1..])
  }

  function EndRow(s: State): State {
    State(s.rows + [s.row + [s.cell]], [], "", s.quoted)
  }

  /** The rows once the text is used up: an unfinished row counts unless it is one empty cell. */
  function Finished(s: State): seq<Row> {
    if s.cell != "" || |s.row| > 0 then EndRow(s).rows else s.rows
  }

  predicate HasContent(row: Row) {
    exists i | 0 <= i < |row| :: Trim(row[i]) != ""
  }

  function WithContent(rows: seq<Row>): seq<Row> {
    if rows == [] then [] else
    WithContent(rows[..|rows| - 1]) + if HasContent(rows[|rows| - 1]) then [rows[|rows| - 1]] else []
  }

  function Parsed(text: string): seq<Row> {
    WithContent(Finished(Scan(START, text)))
  }

  method ParseCsv(text: string) returns (r: seq<Row>)
    ensures r == Parsed(text)
  {
    var rows: seq<Row>, row: Row, cell: string, quoted := [], [], "", false;
    var index := 0;
    while index < |text|
      invariant 0 <= index <= |text|
      invariant Scan(State(rows, row, cell, quoted), text[index..]) == Scan(START, text)
    {
      var character := text[index];
      if quoted {
        if character == '"' && index + 1 < |text| && text[index + 1] == '"' {
          cell := cell + "\"";
          index := index + 1;
        } else if character == '"' {
          quoted := false;
        } else {
          cell := cell + [character];
        }
      } else if character == '"' {
        quoted := true;
      } else if character == ',' {
        row := row + [cell];
        cell := "";
      } else if character == '\n' {
        row := row + [cell];
        rows := rows + [row];
        row := [];
        cell := "";
      } else if character != '\r' {
        cell := cell + [character];
      }
      index := index + 1;
    }
    if cell != "" || |row| > 0 {
      row := row + [cell];
      rows := rows + [row];
    }
    r := [];
    for i := 0 to |rows|
      invariant r == WithContent(rows[..i])
    {
      assert rows[..i + 1][..i] == rows[..i];
      if HasContent(rows[i]) { r := r + [rows[i]]; }
    }
    assert rows[..|rows|] == rows;
  }

  // ---------------------------------------------------------------- the writer of RFC 4180

  function Doubled(cell: string): string {
    if cell == "" then "" else (if cell[0] == '"' then "\"\"" else [cell[0]]) + Doubled(cell[1..])
  }

  /** Fields with line breaks, double quotes or commas are written quoted; the others may be. */
  predicate NeedsQuotes(cell: string) {
    exists c | c in cell :: c == ',' || c == '"' || c == '\n' || c == '\r'
  }

  /** A field as it is to be written. */
  datatype Field = Field(value: string, quote: bool)

  function WriteField(field: Field): string {
    if field.quote || NeedsQuotes(field.value) then "\"" + Doubled(field.value) + "\"" else field.value
  }

  function WriteRecord(fields: seq<Field>): string
    requires fields != []
  {
    if |fields| == 1 then WriteField(fields[0]) else WriteField(fields[0]) + "," + WriteRecord(fields[1..])
  }

  datatype Record = Record(fields: seq<Field>, crlf: bool)

  predicate AllNonEmpty(records: seq<Record>) {
    forall i | 0 <= i < |records| :: records[i].fields != []
  }

  /** The last record may or may not have an ending line break. */
  function Write(records: seq<Record>, lastBreak: bool): string
    requires AllNonEmpty(records)
  {
    if records == [] then "" else
    WriteRecord(records[0].fields)
    + (if |records| == 1 && !lastBreak then "" else if records[0].crlf then "\r\n" else "\n")
    + Write(records[1..], lastBreak)
  }

  function Values(fields: seq<Field>): Row {
    if fields == [] then [] else [fields[0].value] + Values(fields[1..])
  }

  function Rows(records: seq<Record>): seq<Row> {
    if records == [] then [] else [Values(records[0].fields)] + Rows(records[1..])
  }

  // ---------------------------------------------------------------- reading what was written

  lemma {:induction false} ScanQuoted(s: State, cell: string, rest: string)
    requires s.quoted && (rest == "" || rest[0] != '"')
    ensures Scan(s, Doubled(cell) + "\"" + rest) == Scan(s.(cell := s.cell + cell, quoted := false), rest)
    decreases |cell|
  {
    var text := Doubled(cell) + "\"" + rest;
    if cell == "" {
      assert text[1..] == rest;
      assert s.cell + cell == s.cell;
    } else {
      var tail := Doubled(cell[1..]) + "\"" + rest;
      ScanQuoted(s.(cell := s.cell + [cell[0]]), cell[1..], rest);
      assert s.cell + [cell[0]] + cell[1..] == s.cell + cell;
      if cell[0] == '"' {
        assert text == "\"\"" + tail;
        assert text[2..] == tail;
      } else {
        assert text == [cell[0]] + tail;
        assert text[1..] == tail;
      }
    }
  }

  lemma {:induction false} ScanPlain(s: State, cell: string, rest: string)
    requires !s.quoted && !NeedsQuotes(cell)
    ensures Scan(s, cell + rest) == Scan(s.(cell := s.cell + cell), rest)
    decreases |cell|
  {
    if cell == "" {
      assert cell + rest == rest && s.cell + cell == s.cell;
    } else {
      assert cell == [cell[0]] + cell[1..];
      assert cell[0] in cell && forall c | c in cell[1..] :: c in cell;
      ScanPlain(s.(cell := s.cell + [cell[0]]), cell[1..], rest);
      assert s.cell + [cell[0]] + cell[1..] == s.cell + cell;
      assert (cell + rest)[1..] == cell[1..] + rest;
    }
  }

  lemma ScanQuotedField(s: State, value: string, rest: string)
    requires !s.quoted && (rest == "" || rest[0] != '"')
    ensures Scan(s, "\"" + Doubled(value) + "\"" + rest) == Scan(s.(cell := s.cell + value), rest)
  {
    var text := "\"" + Doubled(value) + "\"" + rest;
    var inside := s.(quoted := true);
    assert text[1..] == Doubled(value) + "\"" + rest;
    assert Scan(s, text) == Scan(inside, text[1..]);
    ScanQuoted(inside, value, rest);
  }

  lemma ScanField(s: State, field: Field, rest: string)
    requires !s.quoted && (rest == "" || rest[0] != '"')
    ensures Scan(s, WriteField(field) + rest) == Scan(s.(cell := s.cell + field.value), rest)
  {
    if field.quote || NeedsQuotes(field.value) {
      ScanQuotedField(s, field.value, rest);
    } else {
      ScanPlain(s, field.value, rest);
    }
  }

  lemma ScanComma(s: State, rest: string)
    requires !s.quoted
    ensures Scan(s, "," + rest) == Scan(s.(row := s.row + [s.cell], cell := ""), rest)
  {
    assert ("," + rest)[1..] == rest;
  }

  /** The state once a record's fields are read, its line break still to come. */
  function WithRecord(s: State, row: Row): State
    requires row != []
  {
    s.(row := s.row + row[..|row| - 1], cell := row[|row| - 1])
  }

  lemma WithRecordCons(s: State, first: string, row: Row)
    requires row != []
    ensures WithRecord(s.(row := s.row + [first], cell := ""), row) == WithRecord(s, [first] + row)
  {
    assert s.row + [first] + row[..|row| - 1] == s.row + ([first] + row)[..|row|];
  }

  lemma {:induction false} ScanRecord(s: State, fields: seq<Field>, rest: string)
    requires !s.quoted && s.cell == "" && fields != [] && (rest == "" || rest[0] != '"')
    ensures Values(fields) != [] && Scan(s, WriteRecord(fields) + rest) == Scan(WithRecord(s, Values(fields)), rest)
    decreases |fields|
  {
    assert s.cell + fields[0].value == fields[0].value;
    if |fields| == 1 {
      ScanField(s, fields[0], rest);
      assert Values(fields) == [fields[0].value];
      assert s.row + [fields[0].value][..0] == s.row;
    } else {
      var tail := WriteRecord(fields[1..]) + rest;
      assert WriteRecord(fields) + rest == WriteField(fields[0]) + ("," + tail);
      ScanField(s, fields[0], "," + tail);
      ScanComma(s.(cell := fields[0].value), tail);
      ScanRecord(s.(row := s.row + [fields[0].value], cell := ""), fields[1..], rest);
      WithRecordCons(s, fields[0].value, Values(fields[1..]));
    }
  }

  lemma ScanBreak(s: State, crlf: bool, rest: string)
    requires !s.quoted
    ensures Scan(s, (if crlf then "\r\n" else "\n") + rest) == Scan(EndRow(s), rest)
  {
    assert ("\n" + rest)[1..] == rest;
    assert ("\r\n" + rest)[1..] == "\n" + rest;
  }

  lemma RowsSnoc(rows: seq<Row>, row: Row)
    ensures WithContent(rows + [row]) == WithContent(rows) + if HasContent(row) then [row] else []
  {
    assert (rows + [row])[..|rows|] == rows;
  }

  /** A last record without a line break: a lone empty field is not pushed, and would be filtered out. */
  lemma FinishLast(rows: seq<Row>, row: Row)
    requires row != []
    ensures var n := |row| - 1;
            WithContent(Finished(State(rows, row[..n], row[n], false))) == WithContent(rows + [row])
  {
    var n := |row| - 1;
    assert row[..n] + [row[n]] == row;
    RowsSnoc(rows, row);
    if row[n] == "" && n == 0 {
      assert Trim(row[0]) == "";
    }
  }

  /** One written record with its line break becomes one row. */
  lemma ScanLine(rows: seq<Row>, record: Record, rest: string)
    requires record.fields != []
    ensures Scan(State(rows, [], "", false), WriteRecord(record.fields) + (if record.crlf then "\r\n" else "\n") + rest)
         == Scan(State(rows + [Values(record.fields)], [], "", false), rest)
  {
    var s, row, ending := State(rows, [], "", false), Values(record.fields), if record.crlf then "\r\n" else "\n";
    assert WriteRecord(record.fields) + ending + rest == WriteRecord(record.fields) + (ending + rest);
    ScanRecord(s, record.fields, ending + rest);
    ScanBreak(WithRecord(s, row), record.crlf, rest);
    assert s.row + row[..|row| - 1] + [row[|row| - 1]] == row;
  }

  /** The last record, without one. */
  lemma ScanLastLine(rows: seq<Row>, record: Record)
    requires record.fields != []
    ensures WithContent(Finished(Scan(State(rows, [], "", false), WriteRecord(record.fields)))) ==
            WithContent(rows + [Values(record.fields)])
  {
    var s, row := State(rows, [], "", false), Values(record.fields);
    assert WriteRecord(record.fields) + "" == WriteRecord(record.fields);
    ScanRecord(s, record.fields, "");
    assert s.row + row[..|row| - 1] == row[..|row| - 1];
    FinishLast(rows, row);
  }

  lemma {:induction false} ReadWrittenFrom(rows: seq<Row>, records: seq<Record>, lastBreak: bool)
    requires AllNonEmpty(records)
    ensures WithContent(Finished(Scan(State(rows, [], "", false), Write(records, lastBreak)))) ==
            WithContent(rows + Rows(records))
    decreases |records|
  {
    if records == [] {
      assert rows + Rows(records) == rows;
    } else {
      var row := Values(records[0].fields);
      assert rows + Rows(records) == rows + [row] + Rows(records[1..]);
      if |records| == 1 && !lastBreak {
        assert Write(records, lastBreak) == WriteRecord(records[0].fields);
        ScanLastLine(rows, records[0]);
        assert Rows(records) == [row];
      } else {
        ScanLine(rows, records[0], Write(records[1..], lastBreak));
        ReadWrittenFrom(rows + [row], records[1..], lastBreak);
      }
    }
  }

  /** Reading what the writer wrote gives back its rows, less those of blank fields only. */
  lemma ReadsWhatIsWritten(records: seq<Record>, lastBreak: bool)
    requires AllNonEmpty(records)
    ensures Parsed(Write(records, lastBreak)) == WithContent(Rows(records))
  {
    ReadWrittenFrom([], records, lastBreak);
    assert [] + Rows(records) == Rows(records);
  }

  lemma {:induction false} AllContent(rows: seq<Row>)
    requires forall i | 0 <= i < |rows| :: HasContent(rows[i])
    ensures WithContent(rows) == rows
  {
    if rows != [] {
      AllContent(rows[..|rows| - 1]);
      assert rows == rows[..|rows| - 1] + [rows[|rows| - 1]];
    }
  }

  /** The inverse: rows with a non-blank field each come back unchanged, however they are quoted and broken. */
  lemma RoundTrip(records: seq<Record>, lastBreak: bool)
    requires AllNonEmpty(records) && forall i | 0 <= i < |Rows(records)| :: HasContent(Rows(records)[i])
    ensures Parsed(Write(records, lastBreak)) == Rows(records)
  {
    ReadsWhatIsWritten(records, lastBreak);
    AllContent(Rows(records));
  }

  // ---------------------------------------------------------------- any text at all

  lemma {:induction false} WithContentHasContent(rows: seq<Row>)
    ensures forall i | 0 <= i < |WithContent(rows)| :: HasContent(WithContent(rows)[i])
  {
    if rows != [] {
      WithContentHasContent(rows[..|rows| - 1]);
    }
  }

  /** Every field quoted, every line ended by LF. */
  function Quoted(row: Row): seq<Field> {
    if row == [] then [] else [Field(row[0], true)] + Quoted(row[1..])
  }

  function Canonical(rows: seq<Row>): seq<Record> {
    if rows == [] then [] else [Record(Quoted(rows[0]), false)] + Canonical(rows[1..])
  }

  lemma {:induction false} QuotedValues(row: Row)
    ensures Values(Quoted(row)) == row
  {
    if row != [] {
      QuotedValues(row[1..]);
    }
  }

  lemma {:induction false} CanonicalRows(rows: seq<Row>)
    requires forall i | 0 <= i < |rows| :: rows[i] != []
    ensures AllNonEmpty(Canonical(rows)) && Rows(Canonical(rows)) == rows
  {
    if rows != [] {
      QuotedValues(rows[0]);
      CanonicalRows(rows[1..]);
    }
  }

  /** Whatever the text, what is read from it is well-formed, and survives being written and read again. */
  lemma ReadingIsIdempotent(text: string)
    ensures AllNonEmpty(Canonical(Parsed(text)))
    ensures Parsed(Write(Canonical(Parsed(text)), true)) == Parsed(text)
  {
    WithContentHasContent(Finished(Scan(START, text)));
    CanonicalRows(Parsed(text));
    RoundTrip(Canonical(Parsed(text)), true);
  }
}
