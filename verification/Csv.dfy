/**
 CSV export: the printer of the dashboard, a reader for section 2 of RFC 4180 with LF as the
 record separator and CR as an ordinary character, and the proof that reading undoes printing
 up to the tab put in front of formula-like cells.
 */
module Csv {
  import opened Options

  /** A cell is null/undefined, or the text that String() makes of it. */
  type Cell = Option<string>

  predicate LooksLikeFormula(s: string) {
    s != "" && s[0] in {'=', '+', '-', '@'}
  }

  /** The text a cell stands for in the exported table. */
  function Shown(c: Cell): string {
    match c
    case None => ""
    case Some(s) => if LooksLikeFormula(s) then "\t" + s else s
  }

  predicate NeedsQuotes(s: string) {
    ',' in s || '"' in s || '\n' in s || '\t' in s
  }

  /** Every quote doubled. */
  function DoubleQuotes(s: string): string {
    if s == "" then "" else (if s[0] == '"' then "\"\"" else [s[0]]) + DoubleQuotes(s[1..])
  }

  function EscapeCsvValue(c: Cell): string {
    if c.None? then "" else
      var str := if LooksLikeFormula(c.value) then "\t" + c.value else c.value;
      if NeedsQuotes(str) then "\"" + DoubleQuotes(str) + "\"" else str
  }

  function Join(parts: seq<string>, sep: char): string {
    if parts == [] then "" else if |parts| == 1 then parts[0] else parts[0] + [sep] + Join(parts[1..], sep)
  }

  function EscapeRow(row: seq<Cell>): seq<string> {
    seq(|row|, i requires 0 <= i < |row| => EscapeCsvValue(row[i]))
  }

  function Line(row: seq<Cell>): string {
    Join(EscapeRow(row), ',')
  }

  function Lines(rows: seq<seq<Cell>>): seq<string> {
    seq(|rows|, i requires 0 <= i < |rows| => Line(rows[i]))
  }

  // ---------------------------------------------------------------------------
  // The reader
  // ---------------------------------------------------------------------------

  /** Inside an unquoted field, inside a quoted field, or just after a quote inside a quoted field. */
  datatype Mode = Start | Plain | Quoted | QuoteSeen

  /** Reads records; `record` and `field` are what the current record and field hold so far. None: not CSV. */
  function Read(s: string, mode: Mode, record: seq<string>, field: string): Option<seq<seq<string>>>
    decreases |s|
  {
    if s == "" then
      if mode.Quoted? then None else Some([record + [field]])
    else if mode.Quoted? then
      if s[0] == '"' then Read(s[1..], QuoteSeen, record, field) else Read(s[1..], Quoted, record, field + [s[0]])
    else if s[0] == ',' then Read(s[1..], Start, record + [field], "")
    else if s[0] == '\n' then
      (match Read(s[1..], Start, [], "")
       case None => None
       case Some(rest) => Some([record + [field]] + rest))
    else if s[0] == '"' then
      (match mode
       case Start => Read(s[1..], Quoted, record, field)
       case QuoteSeen => Read(s[1..], Quoted, record, field + ['"'])
       case _ => None)
    else if mode.QuoteSeen? then None
    else Read(s[1..], Plain, record, field + [s[0]])
  }

  function Parse(s: string): Option<seq<seq<string>>> {
    Read(s, Start, [], "")
  }

  // ---------------------------------------------------------------------------
  // Reading a printed cell
  // ---------------------------------------------------------------------------

  lemma {:induction false} ReadPlain(s: string, rest: string, mode: Mode, record: seq<string>, field: string)
    requires !NeedsQuotes(s) && (mode.Start? || mode.Plain?)
    ensures Read(s + rest, mode, record, field) == Read(rest, if s == "" then mode else Plain, record, field + s)
    decreases |s|
  {
    if s == "" {
      assert s + rest == rest && field + s == field;
    } else {
      assert (s + rest)[1..] == s[1..] + rest;
      assert s[0] in s && forall c :: c in s[1..] ==> c in s;
      ReadPlain(s[1..], rest, Plain, record, field + [s[0]]);
      assert (field + [s[0]]) + s[1..] == field + s;
    }
  }

  lemma {:induction false} ReadDoubled(s: string, rest: string, record: seq<string>, field: string)
    ensures Read(DoubleQuotes(s) + rest, Quoted, record, field) == Read(rest, Quoted, record, field + s)
    decreases |s|
  {
    if s == "" {
      assert DoubleQuotes(s) + rest == rest && field + s == field;
    } else {
      var d := DoubleQuotes(s[1..]) + rest;
      ReadDoubled(s[1..], rest, record, field + [s[0]]);
      assert (field + [s[0]]) + s[1..] == field + s;
      if s[0] == '"' {
        assert DoubleQuotes(s) + rest == ['"'] + (['"'] + d);
        assert (['"'] + (['"'] + d))[1..] == ['"'] + d && (['"'] + d)[1..] == d;
      } else {
        assert DoubleQuotes(s) + rest == [s[0]] + d;
        assert ([s[0]] + d)[1..] == d;
      }
    }
  }

  /** After a printed cell the reader holds exactly the text the cell stands for. */
  lemma ReadCell(c: Cell, rest: string, record: seq<string>) returns (mode: Mode)
    ensures !mode.Quoted?
    ensures Read(EscapeCsvValue(c) + rest, Start, record, "") == Read(rest, mode, record, Shown(c))
  {
    var str := Shown(c);
    if NeedsQuotes(str) {
      mode := QuoteSeen;
      var d := DoubleQuotes(str) + ("\"" + rest);
      assert EscapeCsvValue(c) + rest == "\"" + d;
      assert ("\"" + d)[1..] == d;
      ReadDoubled(str, "\"" + rest, record, "");
      assert "" + str == str;
      assert ("\"" + rest)[1..] == rest;
    } else {
      mode := if str == "" then Start else Plain;
      ReadPlain(str, rest, Start, record, "");
      assert "" + str == str;
    }
  }

  function ShownRow(row: seq<Cell>): seq<string> {
    seq(|row|, i requires 0 <= i < |row| => Shown(row[i]))
  }

  /** A row without cells prints as an empty line, which reads as one empty cell. */
  function ReadBack(row: seq<Cell>): seq<string> {
    if row == [] then [""] else ShownRow(row)
  }

  lemma {:induction false} ReadRow(row: seq<Cell>, rest: string, record: seq<string>) returns (mode: Mode, last: string)
    requires row != []
    ensures !mode.Quoted?
    ensures last == Shown(row[|row| - 1])
    ensures Read(Line(row) + rest, Start, record, "") == Read(rest, mode, record + ShownRow(row)[..|row| - 1], last)
    decreases |row|
  {
    if |row| == 1 {
      mode := ReadCell(row[0], rest, record);
      last := Shown(row[0]);
      assert Line(row) == EscapeCsvValue(row[0]);
      assert record + ShownRow(row)[..0] == record;
    } else {
      var tail := Line(row[1..]) + rest;
      var m := ReadCell(row[0], "," + tail, record);
      assert EscapeRow(row)[1..] == EscapeRow(row[1..]);
      assert Line(row) + rest == EscapeCsvValue(row[0]) + ("," + tail);
      assert ("," + tail)[1..] == tail;
      mode, last := ReadRow(row[1..], rest, record + [Shown(row[0])]);
      assert (record + [Shown(row[0])]) + ShownRow(row[1..])[..|row| - 2] == record + ShownRow(row)[..|row| - 1];
    }
  }

  /** A printed line at the end of the text, or followed by another line. */
  lemma ReadLine(row: seq<Cell>, more: Option<string>)
    ensures more.None? ==> Parse(Line(row)) == Some([ReadBack(row)])
    ensures more.Some? ==>
              Parse(Line(row) + ("\n" + more.value)) ==
              (match Parse(more.value) case None => None case Some(records) => Some([ReadBack(row)] + records))
  {
    var rest := if more.None? then "" else "\n" + more.value;
    assert more.Some? ==> rest[1..] == more.value;
    if row == [] {
      assert Line(row) + rest == rest;
      assert [] + [""] == [""];
      assert rest == "" ==> Line(row) == "";
    } else {
      var mode, last := ReadRow(row, rest, []);
      assert ([] + ShownRow(row)[..|row| - 1]) + [last] == ShownRow(row);
      assert rest == "" ==> Line(row) + rest == Line(row);
    }
  }

  lemma {:induction false} ReadLines(rows: seq<seq<Cell>>)
    requires rows != []
    ensures Parse(Join(Lines(rows), '\n')) == Some(seq(|rows|, i requires 0 <= i < |rows| => ReadBack(rows[i])))
    decreases |rows|
  {
    var expected := seq(|rows|, i requires 0 <= i < |rows| => ReadBack(rows[i]));
    if |rows| == 1 {
      ReadLine(rows[0], None);
      assert expected == [ReadBack(rows[0])];
    } else {
      ReadLines(rows[1..]);
      assert Lines(rows)[1..] == Lines(rows[1..]);
      var text := Join(Lines(rows[1..]), '\n');
      assert Join(Lines(rows), '\n') == Line(rows[0]) + ("\n" + text);
      ReadLine(rows[0], Some(text));
      var tail := seq(|rows| - 1, i requires 0 <= i < |rows| - 1 => ReadBack(rows[1..][i]));
      assert expected == [ReadBack(rows[0])] + tail;
    }
  }

  // ---------------------------------------------------------------------------
  // The export
  // ---------------------------------------------------------------------------

  function HeaderRow(headers: seq<string>): seq<Cell> {
    seq(|headers|, i requires 0 <= i < |headers| => Some(headers[i]))
  }

  /** Headers first, then the rows, each record as it reads back. */
  function Table(headers: seq<string>, rows: seq<seq<Cell>>): seq<seq<string>> {
    [ReadBack(HeaderRow(headers))] + seq(|rows|, i requires 0 <= i < |rows| => ReadBack(rows[i]))
  }

  /**
   Round trip: parsing the exported text gives back the headers and every row, cell by cell,
   with nothing but the tab prefix added.
   */
  method ToCsv(headers: seq<string>, rows: seq<seq<Cell>>) returns (csv: string)
    ensures Parse(csv) == Some(Table(headers, rows))
  {
    var all := [HeaderRow(headers)] + rows;
    var lines := [Line(HeaderRow(headers))];
    for i := 0 to |rows|
      invariant lines == Lines(all[..i + 1])
    {
      lines := lines + [Line(rows[i])];
      assert all[..i + 2] == all[..i + 1] + [rows[i]];
    }
    assert all[..|rows| + 1] == all;
    csv := Join(lines, '\n');
    ReadLines(all);
    assert seq(|all|, i requires 0 <= i < |all| => ReadBack(all[i])) == Table(headers, rows);
  }

  /** A formula starts with one of these four. */
  predicate StartsFormula(s: string) {
    s != "" && (s[0] == '=' || s[0] == '+' || s[0] == '-' || s[0] == '@')
  }

  /** What a cell without a value, and one with this text, reads back as. */
  predicate IsDecoded(cell: Cell, text: string) {
    match cell
    case None => text == ""
    case Some(s) => text == if StartsFormula(s) then ['\t'] + s else s
  }

  /**
   What the reader finds, record by record and cell by cell: the headers and then the rows, each
   cell as its text, or its text behind one tab exactly when it starts a formula, and never one
   that starts a formula.
   */
  lemma NoFormulaSurvives(headers: seq<string>, rows: seq<seq<Cell>>, r: nat, c: nat)
    requires r < |Table(headers, rows)| && c < |Table(headers, rows)[r]|
    ensures |Table(headers, rows)| == |rows| + 1
    ensures !StartsFormula(Table(headers, rows)[r][c])
    ensures r == 0 && headers != [] ==>
              |Table(headers, rows)[0]| == |headers| && IsDecoded(Some(headers[c]), Table(headers, rows)[0][c])
    ensures r > 0 && rows[r - 1] != [] ==>
              |Table(headers, rows)[r]| == |rows[r - 1]| && IsDecoded(rows[r - 1][c], Table(headers, rows)[r][c])
  {
    assert !StartsFormula("");
    forall cell: Cell ensures !StartsFormula(Shown(cell)) && IsDecoded(cell, Shown(cell)) {}
  }

  lemma {:induction false} DoublingNeverShortens(s: string)
    ensures |DoubleQuotes(s)| >= |s|
  {
    if s != "" {
      DoublingNeverShortens(s[1..]);
    }
  }

  /** A cell is printed as it reads back, without quotes, unless that has a comma, quote, line feed or tab in it. */
  lemma QuotedExactlyWhen(c: Cell)
    ensures EscapeCsvValue(c) == Shown(c) <==>
            forall i :: 0 <= i < |Shown(c)| ==>
              Shown(c)[i] != ',' && Shown(c)[i] != '"' && Shown(c)[i] != '\n' && Shown(c)[i] != '\t'
    ensures EscapeCsvValue(c) != Shown(c) ==>
              && |EscapeCsvValue(c)| >= |Shown(c)| + 2
              && EscapeCsvValue(c)[0] == '"' && EscapeCsvValue(c)[|EscapeCsvValue(c)| - 1] == '"'
  {
    DoublingNeverShortens(Shown(c));
    var s := Shown(c);
    assert NeedsQuotes(s) <==> exists i :: 0 <= i < |s| && (s[i] == ',' || s[i] == '"' || s[i] == '\n' || s[i] == '\t');
  }
}
