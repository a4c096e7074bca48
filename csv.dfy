/** `parseCSV` of the browser client (app.js:29-46): a header line and
    comma-separated data lines, no quoting, every cell trimmed. */
module Csv {
  import opened JsString

  /** A parsed row: a plain JavaScript object from header name to cell text. */
  type Record = map<string, string>

  /** `line.split(',').map(v => v.trim())`. */
  function Cells(line: string): (r: seq<string>)
    ensures |r| == Count(line, ',') + 1
  {
    var pieces := Split(line, ',');
    seq(|pieces|, i requires 0 <= i < |pieces| => Trim(pieces[i]))
  }

  /** The object `headers.forEach((header, i) => { if (values[i] !== undefined)
      obj[header] = values[i]; })` builds, header by header. */
  function RecordOf(headers: seq<string>, values: seq<string>): (obj: Record)
    ensures forall k :: k in obj <==> exists i :: 0 <= i < |headers| && i < |values| && headers[i] == k
    decreases |headers|
  {
    if headers == [] then map[]
    else
      var n := |headers| - 1;
      var prev := RecordOf(headers[..n], values);
      if n < |values| then prev[headers[n] := values[n]] else prev
  }

  /** A key's value comes from the last header of that name that has a cell
      on the row: a later duplicate header overwrites an earlier one. */
  lemma {:induction false} RecordOfValue(headers: seq<string>, values: seq<string>, i: int)
    requires 0 <= i < |headers| && i < |values|
    requires forall j :: i < j < |headers| && j < |values| ==> headers[j] != headers[i]
    ensures RecordOf(headers, values)[headers[i]] == values[i]
    decreases |headers|
  {
    var n := |headers| - 1;
    if i < n {
      RecordOfValue(headers[..n], values, i);
    }
  }

  /** `.filter(obj => Object.keys(obj).length > 0)`. */
  function NonEmptyRecords(rows: seq<Record>): (r: seq<Record>)
    ensures |r| <= |rows|
  {
    if rows == [] then []
    else (if |rows[0]| > 0 then [rows[0]] else []) + NonEmptyRecords(rows[1..])
  }

  /** `parseCSV(csvString)`. */
  function ParseCsv(text: string): seq<Record> {
    var lines := SplitLines(Trim(text));
    if |lines| <= 1 then []
    else
      var headers := Cells(lines[0]);
      NonEmptyRecords(DataRecords(headers, lines[1..]))
  }

  /** `lines.slice(1).map(...)`: one record per data line. */
  function DataRecords(headers: seq<string>, lines: seq<string>): seq<Record> {
    seq(|lines|, j requires 0 <= j < |lines| => RecordOf(headers, Cells(lines[j])))
  }

  /** The filter keeps a record exactly when it is a non-empty record of the
      input. */
  lemma {:induction false} NonEmptyRecordsMembers(rows: seq<Record>)
    ensures forall x :: x in NonEmptyRecords(rows) <==> x in rows && |x| > 0
  {
    if rows != [] {
      NonEmptyRecordsMembers(rows[1..]);
      assert rows == [rows[0]] + rows[1..];
    }
  }

  /** Every data line yields a record with at least the first header's key, so
      the emptiness filter never drops a row. */
  lemma {:induction false} FilterKeepsAll(rows: seq<Record>)
    requires forall j :: 0 <= j < |rows| ==> |rows[j]| > 0
    ensures NonEmptyRecords(rows) == rows
  {
    if rows != [] {
      FilterKeepsAll(rows[1..]);
    }
  }

  /** A data line always has a first cell, so its record has the first
      header's key. */
  lemma RecordOfNonEmpty(headers: seq<string>, values: seq<string>)
    requires |headers| >= 1 && |values| >= 1
    ensures headers[0] in RecordOf(headers, values)
  {
  }

  /** With a header line and at least one data line, the filter keeps every
      record. */
  lemma ParseCsvUnfiltered(text: string)
    requires |SplitLines(Trim(text))| > 1
    ensures var lines := SplitLines(Trim(text));
            ParseCsv(text) == DataRecords(Cells(lines[0]), lines[1..])
  {
    var lines := SplitLines(Trim(text));
    var headers := Cells(lines[0]);
    var rows := DataRecords(headers, lines[1..]);
    forall j | 0 <= j < |rows| ensures |rows[j]| > 0 {
      RecordOfNonEmpty(headers, Cells(lines[1..][j]));
    }
    FilterKeepsAll(rows);
  }

  /** The number of records is the number of line feeds in the trimmed text:
      none when the trimmed text is a single line (or empty), otherwise one per
      data line. */
  lemma ParseCsvCount(text: string)
    ensures |ParseCsv(text)| == Count(Trim(text), '\n')
  {
    var lines := SplitLines(Trim(text));
    SplitLinesShape(Trim(text));
    if |lines| > 1 {
      ParseCsvUnfiltered(text);
      assert |ParseCsv(text)| == |lines| - 1;
    }
  }

  /** The records are the data lines' records, the j-th built from line j + 1
      against the header line, and their number is the number of line feeds in
      the trimmed text. */
  lemma ParseCsvRows(text: string)
    ensures |ParseCsv(text)| == Count(Trim(text), '\n')
    ensures var lines := SplitLines(Trim(text));
            |lines| > 1 ==> forall j :: 0 <= j < |ParseCsv(text)| ==>
              ParseCsv(text)[j] == RecordOf(Cells(lines[0]), Cells(lines[j + 1]))
  {
    ParseCsvCount(text);
    var lines := SplitLines(Trim(text));
    if |lines| > 1 {
      ParseCsvUnfiltered(text);
      var headers := Cells(lines[0]);
      var data := lines[1..];
      forall j | 0 <= j < |data| ensures DataRecords(headers, data)[j] == RecordOf(headers, Cells(lines[j + 1])) {
        assert data[j] == lines[j + 1];
      }
    }
  }

  /** A key appears in a record exactly when some header with that name has a
      cell on the row: extra cells are ignored, missing cells leave the key
      out, and no key outside the header line appears. */
  lemma ParseCsvKeys(text: string, j: int, k: string)
    requires 0 <= j < |ParseCsv(text)|
    ensures var lines := SplitLines(Trim(text));
            var headers := Cells(lines[0]);
            var values := Cells(lines[j + 1]);
            k in ParseCsv(text)[j] <==> exists i :: 0 <= i < |headers| && i < |values| && headers[i] == k
  {
    ParseCsvRows(text);
  }

  /** Every cell of every record is trimmed and holds neither a comma nor a
      line feed. */
  lemma ParseCsvCells(text: string, j: int, k: string)
    requires 0 <= j < |ParseCsv(text)|
    requires k in ParseCsv(text)[j]
    ensures IsTrimmed(ParseCsv(text)[j][k])
    ensures ',' !in ParseCsv(text)[j][k] && '\n' !in ParseCsv(text)[j][k]
  {
    ParseCsvRows(text);
    var lines := SplitLines(Trim(text));
    SplitLinesShape(Trim(text));
    RecordCellClean(Cells(lines[0]), lines[j + 1], k);
  }

  /** The record of one line without line feeds has only clean cells. */
  lemma RecordCellClean(headers: seq<string>, line: string, k: string)
    requires '\n' !in line
    requires k in RecordOf(headers, Cells(line))
    ensures IsTrimmed(RecordOf(headers, Cells(line))[k])
    ensures ',' !in RecordOf(headers, Cells(line))[k] && '\n' !in RecordOf(headers, Cells(line))[k]
  {
    var values := Cells(line);
    var i :| 0 <= i < |headers| && i < |values| && headers[i] == k;
    CellsClean(line, '\n');
    var i' := LastWith(headers, values, k, i);
    RecordOfValue(headers, values, i');
  }

  /** Every cell of every record is trimmed and holds neither a comma nor a
      line feed. */
  ghost predicate CleanCells(rows: seq<Record>) {
    forall j, k :: 0 <= j < |rows| && k in rows[j] ==>
      IsTrimmed(rows[j][k]) && ',' !in rows[j][k] && '\n' !in rows[j][k]
  }

  lemma ParseCsvClean(text: string)
    ensures CleanCells(ParseCsv(text))
  {
    forall j, k | 0 <= j < |ParseCsv(text)| && k in ParseCsv(text)[j]
      ensures IsTrimmed(ParseCsv(text)[j][k]) && ',' !in ParseCsv(text)[j][k] && '\n' !in ParseCsv(text)[j][k]
    {
      ParseCsvCells(text, j, k);
    }
  }

  /** The last index below both lengths whose header is `k`, at or after `i`. */
  lemma {:induction false} LastWith(headers: seq<string>, values: seq<string>, k: string, i: int) returns (i': int)
    requires 0 <= i < |headers| && i < |values| && headers[i] == k
    ensures i <= i' < |headers| && i' < |values| && headers[i'] == k
    ensures forall j :: i' < j < |headers| && j < |values| ==> headers[j] != headers[i']
    decreases |headers| - i
  {
    if exists j :: i < j < |headers| && j < |values| && headers[j] == k {
      var j :| i < j < |headers| && j < |values| && headers[j] == k;
      i' := LastWith(headers, values, k, j);
    } else {
      i' := i;
    }
  }

  lemma CellsClean(line: string, c: char)
    requires c !in line
    ensures forall i :: 0 <= i < |Cells(line)| ==> IsTrimmed(Cells(line)[i])
    ensures forall i :: 0 <= i < |Cells(line)| ==> ',' !in Cells(line)[i] && c !in Cells(line)[i]
  {
    var pieces := Split(line, ',');
    var cells := Cells(line);
    forall i | 0 <= i < |cells| ensures IsTrimmed(cells[i]) && ',' !in cells[i] && c !in cells[i] {
      assert cells[i] == Trim(pieces[i]);
      JoinContains(pieces, ',', i);
      TrimContains(pieces[i]);
      TrimSpec(pieces[i]);
    }
  }

  lemma TrimContains(s: string)
    ensures forall x :: x in Trim(s) ==> x in s
  {
    var a := |s| - |TrimStart(s)|;
    var r := Trim(s);
    assert r == s[a..a + |r|];
    SliceContains(s, a, a + |r|);
  }

  lemma SliceContains(s: string, i: int, j: int)
    requires 0 <= i <= j <= |s|
    ensures forall x :: x in s[i..j] ==> x in s
  {
    forall x | x in s[i..j] ensures x in s {
      var k :| 0 <= k < j - i && s[i..j][k] == x;
      assert s[i + k] == x;
    }
  }

  lemma {:induction false} JoinContains(pieces: seq<string>, sep: char, i: int)
    requires |pieces| >= 1 && 0 <= i < |pieces|
    ensures forall x :: x in pieces[i] ==> x in Join(pieces, sep)
  {
    if |pieces| > 1 && i > 0 {
      JoinContains(pieces[1..], sep, i - 1);
    }
  }
}
