/**
 * `parseCSVData` (script.js): the roster text is split into lines, the first
 * line names the columns, and every later line that is not blank becomes one
 * record keyed by those names. There is no quoting: a comma always separates
 * two fields and a newline always separates two lines.
 */
module Csv {
  import opened JsString

  /** One roster row: column name to trimmed field text. */
  type Record = map<string, string>

  /** `values[index] ? values[index].trim() : ''`: a missing or empty field reads as the empty string. */
  function Field(values: seq<string>, index: nat): string {
    if index < |values| && values[index] != "" then Trim(values[index]) else ""
  }

  /** The record after the header loop has visited the first `n` headers: every visited header is a key. */
  function BuildRow(headers: seq<string>, values: seq<string>, n: nat): (row: Record)
    requires n <= |headers|
    ensures row.Keys == set j | 0 <= j < n :: headers[j]
  {
    if n == 0 then map[]
    else
      var previous := BuildRow(headers, values, n - 1);
      assert (set j | 0 <= j < n :: headers[j]) == (set j | 0 <= j < n - 1 :: headers[j]) + {headers[n - 1]};
      previous[headers[n - 1] := Field(values, n - 1)]
  }

  /**
   * A visited header holds the field at its last position among the visited
   * headers: a repeated column name keeps its rightmost field.
   */
  lemma {:induction false} BuildRowValue(headers: seq<string>, values: seq<string>, n: nat, j: nat)
    requires j < n <= |headers|
    requires headers[j] !in headers[j + 1..n]
    ensures BuildRow(headers, values, n)[headers[j]] == Field(values, j)
  {
    if j < n - 1 {
      assert headers[j + 1..n] == headers[j + 1..n - 1] + [headers[n - 1]];
      BuildRowValue(headers, values, n - 1, j);
    }
  }

  /** The record one data line yields. */
  function RowOf(headers: seq<string>, line: string): Record {
    BuildRow(headers, Split(line, ','), |headers|)
  }

  /** `lines[i].trim() === ''`: the line is skipped. */
  predicate IsBlank(line: string) {
    Trim(line) == ""
  }

  /** `lines[0].split(',').map(h => h.trim())`. */
  function HeaderNames(headerLine: string): seq<string> {
    var parts := Split(headerLine, ',');
    seq(|parts|, j requires 0 <= j < |parts| => Trim(parts[j]))
  }

  /** The records pushed while the loop walks `lines`, blank lines skipped. */
  function Rows(headers: seq<string>, lines: seq<string>): seq<Record> {
    if lines == [] then []
    else
      var last := lines[|lines| - 1];
      Rows(headers, lines[..|lines| - 1]) + (if IsBlank(last) then [] else [RowOf(headers, last)])
  }

  /** `parseCSVData(csvText)` as a value. */
  function Parse(csvText: string): seq<Record> {
    var lines := Split(csvText, '\n');
    Rows(HeaderNames(lines[0]), lines[1..])
  }

  /** The positions of the non-blank lines: exactly those, in increasing order. */
  function KeptLines(lines: seq<string>): (ks: seq<nat>)
    ensures forall a :: 0 <= a < |ks| ==> ks[a] < |lines| && !IsBlank(lines[ks[a]])
    ensures forall a, b :: 0 <= a < b < |ks| ==> ks[a] < ks[b]
    ensures forall i :: 0 <= i < |lines| && !IsBlank(lines[i]) ==> i in ks
  {
    if lines == [] then []
    else
      var init := lines[..|lines| - 1];
      var ks := KeptLines(init);
      assert forall a :: 0 <= a < |ks| ==> lines[ks[a]] == init[ks[a]];
      ks + (if IsBlank(lines[|lines| - 1]) then [] else [|lines| - 1])
  }

  /** The loop's records are the rows of the non-blank lines, one each, in line order. */
  lemma {:induction false} RowsInOrder(headers: seq<string>, lines: seq<string>)
    ensures |Rows(headers, lines)| == |KeptLines(lines)|
    ensures forall a :: 0 <= a < |KeptLines(lines)| ==>
      Rows(headers, lines)[a] == RowOf(headers, lines[KeptLines(lines)[a]])
  {
    if lines != [] {
      var init := lines[..|lines| - 1];
      RowsInOrder(headers, init);
      var ks := KeptLines(init);
      assert forall a :: 0 <= a < |ks| ==> lines[ks[a]] == init[ks[a]];
    }
  }

  /**
   * Parsing yields one record per line after the header line whose trimmed
   * text is non-empty, in the order of the lines; each record has exactly the
   * trimmed header names as keys, and, when the names are distinct, each key
   * holds the trimmed field at the header's position ('' for a missing field;
   * fields beyond the header count are dropped).
   */
  lemma ParseRecords(csvText: string)
    ensures var lines := Split(csvText, '\n');
      var headers := HeaderNames(lines[0]);
      var kept := KeptLines(lines[1..]);
      && |Parse(csvText)| == |kept|
      && forall a :: 0 <= a < |kept| ==>
        && Parse(csvText)[a].Keys == (set j | 0 <= j < |headers| :: headers[j])
        && ((forall i, j :: 0 <= i < j < |headers| ==> headers[i] != headers[j]) ==>
              forall j :: 0 <= j < |headers| ==>
                Parse(csvText)[a][headers[j]] == Field(Split(lines[1..][kept[a]], ','), j))
  {
    var lines := Split(csvText, '\n');
    var headers := HeaderNames(lines[0]);
    var kept := KeptLines(lines[1..]);
    RowsInOrder(headers, lines[1..]);
    if forall i, j :: 0 <= i < j < |headers| ==> headers[i] != headers[j] {
      forall a, j | 0 <= a < |kept| && 0 <= j < |headers|
        ensures Parse(csvText)[a][headers[j]] == Field(Split(lines[1..][kept[a]], ','), j)
      {
        assert headers[j] !in headers[j + 1..|headers|];
        BuildRowValue(headers, Split(lines[1..][kept[a]], ','), |headers|, j);
      }
    }
  }

  /** Text with no newline is a header line alone and parses to no records. */
  lemma ParseWithoutNewline(csvText: string)
    requires '\n' !in csvText
    ensures Parse(csvText) == []
  {
    SplitWithoutSeparator(csvText, '\n');
  }

  /** A line list with no blank line yields one record per line. */
  lemma {:induction false} RowsWithoutBlankLines(headers: seq<string>, lines: seq<string>)
    requires forall i :: 0 <= i < |lines| ==> !IsBlank(lines[i])
    ensures Rows(headers, lines) == seq(|lines|, k requires 0 <= k < |lines| => RowOf(headers, lines[k]))
  {
    if lines != [] {
      var init := lines[..|lines| - 1];
      RowsWithoutBlankLines(headers, init);
      var expected := seq(|lines|, k requires 0 <= k < |lines| => RowOf(headers, lines[k]));
      assert expected == seq(|init|, k requires 0 <= k < |init| => RowOf(headers, init[k])) + [RowOf(headers, lines[|lines| - 1])];
    }
  }

  /** A header name or field that can be written into a line and read back unchanged: no separator, no surrounding white space. */
  predicate IsPlainCell(s: string) {
    && ',' !in s && '\n' !in s
    && (s == [] || (!IsWhiteSpace(s[0]) && !IsWhiteSpace(s[|s| - 1])))
  }

  /** One line per row, its fields joined with commas. */
  function DataLines(rows: seq<seq<string>>): seq<string> {
    seq(|rows|, k requires 0 <= k < |rows| => Join(rows[k], ','))
  }

  /** The header line followed by one line per row. */
  function CsvLines(headers: seq<string>, rows: seq<seq<string>>): seq<string> {
    [Join(headers, ',')] + DataLines(rows)
  }

  /** The CSV text with the given header line and one line per row. */
  function ToCsv(headers: seq<string>, rows: seq<seq<string>>): string {
    Join(CsvLines(headers, rows), '\n')
  }

  /** A line joined from plain cells has no newline. */
  lemma LineWithoutNewline(cells: seq<string>)
    requires forall j :: 0 <= j < |cells| ==> IsPlainCell(cells[j])
    ensures '\n' !in Join(cells, ',')
  {
    if '\n' in Join(cells, ',') {
      JoinChars(cells, ',', '\n');
    }
  }

  /** No written line holds a newline. */
  lemma CsvLinesWithoutNewline(headers: seq<string>, rows: seq<seq<string>>)
    requires forall j :: 0 <= j < |headers| ==> IsPlainCell(headers[j])
    requires forall k, j :: 0 <= k < |rows| && 0 <= j < |rows[k]| ==> IsPlainCell(rows[k][j])
    ensures forall i :: 0 <= i < |CsvLines(headers, rows)| ==> '\n' !in CsvLines(headers, rows)[i]
  {
    var lines := CsvLines(headers, rows);
    forall i | 0 <= i < |lines| ensures '\n' !in lines[i] {
      if i == 0 {
        LineWithoutNewline(headers);
      } else {
        assert lines[i] == Join(rows[i - 1], ',');
        LineWithoutNewline(rows[i - 1]);
      }
    }
  }

  /** The written text splits back into its header line and its data lines. */
  lemma SplitCsv(headers: seq<string>, rows: seq<seq<string>>)
    requires forall j :: 0 <= j < |headers| ==> IsPlainCell(headers[j])
    requires forall k, j :: 0 <= k < |rows| && 0 <= j < |rows[k]| ==> IsPlainCell(rows[k][j])
    ensures Split(ToCsv(headers, rows), '\n') == CsvLines(headers, rows)
  {
    CsvLinesWithoutNewline(headers, rows);
    SplitJoin(CsvLines(headers, rows), '\n');
  }

  /** A header line of plain names reads back as those names. */
  lemma PlainHeaderLine(headers: seq<string>)
    requires |headers| >= 1
    requires forall j :: 0 <= j < |headers| ==> IsPlainCell(headers[j])
    ensures HeaderNames(Join(headers, ',')) == headers
  {
    SplitJoin(headers, ',');
    var names := HeaderNames(Join(headers, ','));
    assert |names| == |headers|;
    forall j | 0 <= j < |headers| ensures names[j] == headers[j] {
      TrimFixed(headers[j]);
    }
  }

  /**
   * A line of plain fields is kept when it has a separator or its one field
   * is non-empty, and its record is built from those fields.
   */
  lemma PlainDataLine(headers: seq<string>, row: seq<string>)
    requires |row| >= 1
    requires forall j :: 0 <= j < |row| ==> IsPlainCell(row[j])
    requires |row| >= 2 || row[0] != ""
    ensures !IsBlank(Join(row, ','))
    ensures RowOf(headers, Join(row, ',')) == BuildRow(headers, row, |headers|)
  {
    var line := Join(row, ',');
    if |row| >= 2 {
      assert line == row[0] + [','] + Join(row[1..], ',');
      assert line[|row[0]|] == ',';
    } else {
      assert line == row[0];
      assert line[0] == row[0][0];
    }
    TrimBounds(line);
    SplitJoin(row, ',');
  }

  /** Plain fields read back unchanged. */
  lemma PlainFields(row: seq<string>, j: nat)
    requires j < |row| && IsPlainCell(row[j])
    ensures Field(row, j) == row[j]
  {
    TrimFixed(row[j]);
  }

  /**
   * Writing distinct plain header names and rows of plain fields, one field
   * per header, and parsing the text back gives one record per row, keyed by
   * the header names, holding the row's fields. The rows left out are the
   * ones written as a blank line: a single header with an empty field.
   */
  lemma ParseToCsv(headers: seq<string>, rows: seq<seq<string>>)
    requires |headers| >= 1
    requires forall j :: 0 <= j < |headers| ==> IsPlainCell(headers[j])
    requires forall i, j :: 0 <= i < j < |headers| ==> headers[i] != headers[j]
    requires forall k :: 0 <= k < |rows| ==> |rows[k]| == |headers|
    requires forall k, j :: 0 <= k < |rows| && 0 <= j < |rows[k]| ==> IsPlainCell(rows[k][j])
    requires forall k :: 0 <= k < |rows| ==> |headers| >= 2 || rows[k][0] != ""
    ensures |Parse(ToCsv(headers, rows))| == |rows|
    ensures forall k :: 0 <= k < |rows| ==>
      Parse(ToCsv(headers, rows))[k].Keys == (set j | 0 <= j < |headers| :: headers[j])
    ensures forall k, j :: 0 <= k < |rows| && 0 <= j < |headers| ==>
      Parse(ToCsv(headers, rows))[k][headers[j]] == rows[k][j]
  {
    var body := DataLines(rows);
    SplitCsv(headers, rows);
    assert CsvLines(headers, rows)[1..] == body;
    PlainHeaderLine(headers);
    forall k | 0 <= k < |rows|
      ensures !IsBlank(body[k]) && RowOf(headers, body[k]) == BuildRow(headers, rows[k], |headers|)
    {
      PlainDataLine(headers, rows[k]);
    }
    RowsWithoutBlankLines(headers, body);
    assert Parse(ToCsv(headers, rows)) == seq(|body|, k requires 0 <= k < |body| => RowOf(headers, body[k]));
    forall k, j | 0 <= k < |rows| && 0 <= j < |headers|
      ensures Parse(ToCsv(headers, rows))[k][headers[j]] == rows[k][j]
    {
      assert headers[j] !in headers[j + 1..|headers|];
      BuildRowValue(headers, rows[k], |headers|, j);
      PlainFields(rows[k], j);
    }
  }

  /** The `headers.forEach` loop that fills one record from the fields of one line. */
  method FillRow(headers: seq<string>, values: seq<string>) returns (row: Record)
    ensures row == BuildRow(headers, values, |headers|)
  {
    row := map[];
    for index := 0 to |headers|
      invariant row == BuildRow(headers, values, index)
    {
      var field := if index < |values| && values[index] != "" then Trim(values[index]) else "";
      row := row[headers[index] := field];
    }
  }

  /** `parseCSVData(csvText)`: the loop over the lines after the header line. */
  method ParseCSVData(csvText: string) returns (data: seq<Record>)
    ensures data == Parse(csvText)
  {
    var lines := Split(csvText, '\n');
    var headers := HeaderNames(lines[0]);
    data := [];
    for i := 1 to |lines|
      invariant data == Rows(headers, lines[1..i])
    {
      ghost var seen := lines[1..i + 1];
      assert seen[..|seen| - 1] == lines[1..i] && seen[|seen| - 1] == lines[i];
      if Trim(lines[i]) == "" {
        continue;
      }
      var values := Split(lines[i], ',');
      var row := FillRow(headers, values);
      data := data + [row];
    }
    assert lines[1..|lines|] == lines[1..];
  }
}
