/** The gradebook export: a table of cells printed as CSV, undone by a reader of section 2 of RFC 4180
    with LF line ends. */
module Gradebook {
  import opened Wrappers
  import opened Text

  type Table = seq<seq<string>>

  // ----- the printer

  function Join(parts: seq<string>, separator: string): string {
    if parts == [] then "" else
    if |parts| == 1 then parts[0] else Join(parts[..|parts| - 1], separator) + separator + parts[|parts| - 1]
  }

  /** `gsub("\"", "\"\"")` */
  function Doubled(s: string): string {
    if s == [] then "" else (if s[0] == '"' then "\"\"" else [s[0]]) + Doubled(s[1..])
  }

  function EscapeCsv(value: string): string {
    if ',' in value || '"' in value || '\n' in value then "\"" + Doubled(value) + "\"" else value
  }

  function Escaped(row: seq<string>): (r: seq<string>)
    ensures |r| == |row| && forall i | 0 <= i < |row| :: r[i] == EscapeCsv(row[i])
  {
    seq(|row|, i requires 0 <= i < |row| => EscapeCsv(row[i]))
  }

  function PrintRow(row: seq<string>): string { Join(Escaped(row), ",") }

  function PrintRows(rows: Table): (r: seq<string>)
    ensures |r| == |rows| && forall i | 0 <= i < |rows| :: r[i] == PrintRow(rows[i])
  {
    seq(|rows|, i requires 0 <= i < |rows| => PrintRow(rows[i]))
  }

  function Print(rows: Table): string { Join(PrintRows(rows), "\n") + "\n" }

  // ----- the reader

  datatype Mode = Start | Plain | Quoted | Closing | Malformed

  /** Records read, fields of the current record, and the current field. */
  datatype Reader = Reader(rows: Table, row: seq<string>, cell: string, mode: Mode) {
    function EndField(): Reader { Reader(rows, row + [cell], "", Start) }

    function EndRecord(): Reader { Reader(rows + [row + [cell]], [], "", Start) }

    function Append(c: char, next: Mode): Reader { Reader(rows, row, cell + [c], next) }

    function Next(c: char): Reader {
      if mode == Malformed then this
      else if mode == Quoted then if c == '"' then this.(mode := Closing) else Append(c, Quoted)
      else if c == ',' then EndField()
      else if c == '\n' then EndRecord()
      else if c == '"' then
        (match mode
         case Start => this.(mode := Quoted)
         case Closing => Append(c, Quoted)
         case _ => this.(mode := Malformed))
      else if mode == Closing then this.(mode := Malformed)
      else Append(c, Plain)
    }

    /** A final line end closes the last record; it does not open another. */
    function Finish(): Option<Table> {
      if mode == Malformed || mode == Quoted then None
      else if mode == Start && row == [] && rows != [] then Some(rows)
      else Some(EndRecord().rows)
    }
  }

  function Run(r: Reader, text: string): Reader
    decreases |text|
  {
    if text == [] then r else Run(r.Next(text[0]), text[1..])
  }

  function Read(text: string): Option<Table> { Run(Reader([], [], "", Start), text).Finish() }

  // ----- reading what was printed

  lemma {:induction false} RunConcat(r: Reader, a: string, b: string)
    ensures Run(r, a + b) == Run(Run(r, a), b)
    decreases |a|
  {
    if a == [] {
      assert a + b == b;
    } else {
      assert (a + b)[1..] == a[1..] + b;
      RunConcat(r.Next(a[0]), a[1..], b);
    }
  }

  lemma {:induction false} RunPlain(r: Reader, value: string)
    requires r.mode == Plain && ',' !in value && '"' !in value && '\n' !in value
    ensures Run(r, value) == r.(cell := r.cell + value)
    decreases |value|
  {
    if value == [] {
      assert r.cell + value == r.cell;
    } else {
      RunPlain(r.Next(value[0]), value[1..]);
      assert r.cell + [value[0]] + value[1..] == r.cell + value;
    }
  }

  lemma {:induction false} RunQuoted(r: Reader, value: string)
    requires r.mode == Quoted
    ensures Run(r, Doubled(value)) == r.(cell := r.cell + value)
    decreases |value|
  {
    if value == [] {
      assert r.cell + value == r.cell;
    } else {
      var c, rest := value[0], value[1..];
      var front := if c == '"' then "\"\"" else [c];
      RunConcat(r, front, Doubled(rest));
      QuotedChar(r, c);
      RunQuoted(r.Append(c, Quoted), rest);
      assert r.cell + [c] + rest == r.cell + value;
    }
  }

  lemma QuotedChar(r: Reader, c: char)
    requires r.mode == Quoted
    ensures Run(r, if c == '"' then "\"\"" else [c]) == r.Append(c, Quoted)
  {
    if c == '"' {
      var two := "\"\"";
      assert Run(r, two) == Run(r.(mode := Closing), two[1..]);
      assert two[1..] == [c] && [c][1..] == [];
    } else {
      assert [c][1..] == [];
    }
  }

  predicate FieldRead(before: Reader, after: Reader, value: string) {
    && (after.mode == Start || after.mode == Plain || after.mode == Closing)
    && after == Reader(before.rows, before.row, value, after.mode)
    && (after.mode == Start ==> value == "")
  }

  /** A printed field is read back whole, ready for a comma or a line end. */
  lemma ReadField(r: Reader, value: string)
    requires r.mode == Start && r.cell == ""
    ensures FieldRead(r, Run(r, EscapeCsv(value)), value)
  {
    if ',' in value || '"' in value || '\n' in value {
      var quote := "\"";
      var open := r.(mode := Quoted);
      assert quote[1..] == [];
      assert Run(r, quote) == open;
      RunConcat(r, quote, Doubled(value) + quote);
      assert quote + (Doubled(value) + quote) == quote + Doubled(value) + quote;
      RunConcat(open, Doubled(value), quote);
      RunQuoted(open, value);
      assert open.cell + value == value;
      var read := open.(cell := value);
      assert Run(read, quote) == read.(mode := Closing);
    } else if value != "" {
      RunPlain(r.Next(value[0]), value[1..]);
      assert "" + [value[0]] + value[1..] == value;
    }
  }

  lemma PrintOneMoreField(row: seq<string>)
    requires |row| > 1
    ensures PrintRow(row) == PrintRow(row[..|row| - 1]) + "," + EscapeCsv(row[|row| - 1])
  {
    hide EscapeCsv;
    assert Escaped(row)[..|row| - 1] == Escaped(row[..|row| - 1]);
  }

  lemma ReadComma(r: Reader, before: Reader, value: string)
    requires FieldRead(before, r, value)
    ensures Run(r, ",") == Reader(before.rows, before.row + [value], "", Start)
  {
    var comma := ",";
    assert comma[1..] == [] && Run(r, comma) == r.Next(',');
  }

  /** A printed record is read back up to its last field. */
  lemma {:induction false} ReadRow(r: Reader, row: seq<string>)
    requires row != [] && r.mode == Start && r.cell == "" && r.row == []
    ensures FieldRead(r.(row := row[..|row| - 1]), Run(r, PrintRow(row)), row[|row| - 1])
  {
    var n := |row| - 1;
    var init, last := row[..n], row[n];
    if n == 0 {
      assert PrintRow(row) == EscapeCsv(last);
      ReadField(r, last);
    } else {
      PrintOneMoreField(row);
      hide PrintRow, EscapeCsv, FieldRead, Run;
      RunConcat(r, PrintRow(init) + ",", EscapeCsv(last));
      RunConcat(r, PrintRow(init), ",");
      ReadRow(r, init);
      ReadComma(Run(r, PrintRow(init)), r.(row := init[..n - 1]), init[n - 1]);
      assert init[..n - 1] + [init[n - 1]] == init;
      ReadField(Reader(r.rows, init, "", Start), last);
    }
  }

  /** What the printed text says: a record without fields reads as one empty field. */
  function PaddedRow(row: seq<string>): seq<string> { if row == [] then [""] else row }

  function Padded(rows: Table): (r: Table)
    ensures r != [] && (rows != [] ==> |r| == |rows| && forall i | 0 <= i < |rows| :: r[i] == PaddedRow(rows[i]))
  {
    if rows == [] then [[""]] else seq(|rows|, i requires 0 <= i < |rows| => PaddedRow(rows[i]))
  }

  lemma PrintPaddedRow(row: seq<string>)
    ensures PrintRow(PaddedRow(row)) == PrintRow(row)
  {
    if row == [] {
      assert Escaped([""])[0] == "";
    }
  }

  lemma PrintPadded(rows: Table)
    ensures Print(Padded(rows)) == Print(rows)
  {
    if rows == [] {
      PrintPaddedRow([]);
      assert PrintRows([[""]]) == [PrintRow([])];
    } else {
      forall i | 0 <= i < |rows|
        ensures PrintRow(Padded(rows)[i]) == PrintRow(rows[i])
      {
        PrintPaddedRow(rows[i]);
      }
      assert PrintRows(Padded(rows)) == PrintRows(rows);
    }
  }

  lemma ReadLine(r: Reader, row: seq<string>)
    requires row != [] && r.mode == Start && r.cell == "" && r.row == []
    ensures Run(r, PrintRow(row) + "\n") == Reader(r.rows + [row], [], "", Start)
  {
    var newline := "\n";
    ReadRow(r, row);
    RunConcat(r, PrintRow(row), newline);
    var read := Run(r, PrintRow(row));
    assert newline[1..] == [] && Run(read, newline) == read.Next('\n') == read.EndRecord();
    assert row[..|row| - 1] + [row[|row| - 1]] == row;
  }

  lemma PrintOneMore(rows: Table)
    requires |rows| > 1
    ensures Print(rows) == Print(rows[..|rows| - 1]) + (PrintRow(rows[|rows| - 1]) + "\n")
  {
    hide PrintRow;
    var n := |rows| - 1;
    assert PrintRows(rows)[..n] == PrintRows(rows[..n]);
  }

  lemma {:induction false} ReadRows(rows: Table)
    requires rows != [] && [] !in rows
    ensures Run(Reader([], [], "", Start), Print(rows)) == Reader(rows, [], "", Start)
  {
    hide Run, PrintRow;
    var n, r := |rows| - 1, Reader([], [], "", Start);
    var init, last := rows[..n], rows[n];
    assert last in rows && forall row | row in init :: row in rows;
    if n == 0 {
      assert PrintRows(rows) == [PrintRow(last)];
      ReadLine(r, last);
      assert [] + [last] == rows;
    } else {
      PrintOneMore(rows);
      hide Print;
      RunConcat(r, Print(init), PrintRow(last) + "\n");
      ReadRows(init);
      ReadLine(Reader(init, [], "", Start), last);
      assert init + [last] == rows;
    }
  }

  /** Every table's text is well formed and reads back as the padded table. */
  lemma ReadPrinted(rows: Table)
    ensures Read(Print(rows)) == Some(Padded(rows))
  {
    PrintPadded(rows);
    ReadRows(Padded(rows));
  }

  /** Reading undoes printing iff the table has a record and no record is without fields. */
  lemma RoundTripIff(rows: Table)
    ensures Read(Print(rows)) == Some(rows) <==> rows != [] && [] !in rows
  {
    ReadPrinted(rows);
    hide Read, Print;
    if [] in rows {
      var i :| 0 <= i < |rows| && rows[i] == [];
      assert Padded(rows)[i] != rows[i];
    } else if rows != [] {
      assert Padded(rows) == rows;
    }
  }

  /** Two tables print alike iff they differ at most in the padding. */
  lemma PrintedAlikeIff(a: Table, b: Table)
    ensures Print(a) == Print(b) <==> Padded(a) == Padded(b)
  {
    hide Print, Padded, Read;
    ReadPrinted(a);
    ReadPrinted(b);
    PrintPadded(a);
    PrintPadded(b);
  }

  // ----- the gradebook's table

  datatype Cell = Cell(missing: bool, late: bool, grade: Option<real>)

  datatype Mastery = Mastery(percentage: Option<real>, mastered: nat, total: nat)

  datatype Student = Student(
    name: string, email: string, grades: seq<Cell>, average: Option<real>, missing: nat, late: nat,
    mastery: Option<Mastery>)

  datatype Assignment = Assignment(title: string, average: Option<real>)

  datatype Payload = Payload(
    assignments: seq<Assignment>, students: seq<Student>, overallAverage: Option<real>,
    studentsWithMissing: Option<nat>)

  /** `value.to_f.round(2).to_s` */
  type NumberFormat = real -> string

  function FormatPercentage(number: NumberFormat, value: Option<real>): string {
    if value.None? then "-" else number(value.value) + "%"
  }

  function FormatMastery(number: NumberFormat, mastery: Option<Mastery>): string {
    if mastery.None? then "-" else
    FormatPercentage(number, mastery.value.percentage)
    + " (" + Digits(mastery.value.mastered) + "/" + Digits(mastery.value.total) + ")"
  }

  function CellValue(number: NumberFormat, cell: Cell): string {
    if cell.missing then "MISSING"
    else if cell.grade.None? then "-"
    else if cell.late then number(cell.grade.value) + " (LATE)"
    else number(cell.grade.value)
  }

  function CellValues(number: NumberFormat, cells: seq<Cell>): (r: seq<string>)
    ensures |r| == |cells| && forall i | 0 <= i < |cells| :: r[i] == CellValue(number, cells[i])
  {
    seq(|cells|, i requires 0 <= i < |cells| => CellValue(number, cells[i]))
  }

  function Titles(assignments: seq<Assignment>): (r: seq<string>)
    ensures |r| == |assignments| && forall i | 0 <= i < |assignments| :: r[i] == assignments[i].title
  {
    seq(|assignments|, i requires 0 <= i < |assignments| => assignments[i].title)
  }

  function Averages(number: NumberFormat, assignments: seq<Assignment>): (r: seq<string>)
    ensures |r| == |assignments|
    ensures forall i | 0 <= i < |assignments| :: r[i] == FormatPercentage(number, assignments[i].average)
  {
    seq(|assignments|, i requires 0 <= i < |assignments| => FormatPercentage(number, assignments[i].average))
  }

  function Headers(p: Payload): seq<string> {
    ["Student Name", "Email"] + Titles(p.assignments) + ["Course Average", "Missing", "Late", "Mastery"]
  }

  function StudentRow(number: NumberFormat, s: Student): seq<string> {
    [s.name, s.email] + CellValues(number, s.grades)
    + [FormatPercentage(number, s.average), Digits(s.missing), Digits(s.late), FormatMastery(number, s.mastery)]
  }

  function SummaryRow(number: NumberFormat, p: Payload): seq<string> {
    ["Class Average", ""] + Averages(number, p.assignments)
    + [FormatPercentage(number, p.overallAverage),
       if p.studentsWithMissing.Some? then Digits(p.studentsWithMissing.value) else "", "", ""]
  }

  function StudentRows(number: NumberFormat, students: seq<Student>): Table {
    if students == [] then [] else
    StudentRows(number, students[..|students| - 1]) + [StudentRow(number, students[|students| - 1])]
  }

  lemma {:induction false} StudentRowsAt(number: NumberFormat, students: seq<Student>)
    ensures |StudentRows(number, students)| == |students|
    ensures forall i | 0 <= i < |students| :: StudentRows(number, students)[i] == StudentRow(number, students[i])
  {
    hide StudentRow;
    if students != [] {
      var init := students[..|students| - 1];
      StudentRowsAt(number, init);
      assert forall i | 0 <= i < |init| :: init[i] == students[i];
    }
  }

  function Rows(number: NumberFormat, p: Payload): Table {
    [Headers(p)] + StudentRows(number, p.students) + [SummaryRow(number, p)]
  }

  /** The export, as a reader of the file sees it. */
  method Call(number: NumberFormat, p: Payload) returns (text: string)
    ensures text == Print(Rows(number, p)) && Read(text) == Some(Rows(number, p))
  {
    hide Print, Read, Headers, StudentRow, SummaryRow;
    var rows := [];
    rows := rows + [Headers(p)];
    for i := 0 to |p.students|
      invariant rows == [Headers(p)] + StudentRows(number, p.students[..i])
    {
      assert p.students[..i + 1][..i] == p.students[..i];
      rows := rows + [StudentRow(number, p.students[i])];
    }
    assert p.students[..|p.students|] == p.students;
    rows := rows + [SummaryRow(number, p)];
    text := Print(rows);
    RowsHaveFields(number, p);
    RoundTripIff(rows);
  }

  lemma RowWidths(number: NumberFormat, p: Payload)
    ensures
      var rows, n := Rows(number, p), |p.assignments| + 6;
      && |rows| == |p.students| + 2 && |rows[0]| == |rows[|rows| - 1]| == n
      && (forall i | 0 <= i < |p.students| :: |rows[1 + i]| == |p.students[i].grades| + 6)
  {
    StudentRowsAt(number, p.students);
    hide StudentRows;
  }

  lemma RowsHaveFields(number: NumberFormat, p: Payload)
    ensures [] !in Rows(number, p)
  {
    RowWidths(number, p);
    hide Rows;
    var rows := Rows(number, p);
    forall k | 0 <= k < |rows|
      ensures rows[k] != []
    {
      if 0 < k < |rows| - 1 {
        var i := k - 1;
        assert |rows[1 + i]| == |p.students[i].grades| + 6;
      } else {
        assert |rows[k]| == |p.assignments| + 6;
      }
    }
  }

  predicate SameWidth(rows: Table, width: nat) { forall row | row in rows :: |row| == width }

  /** All rows are equally wide iff each student has one grade per assignment. */
  lemma SameWidthIff(number: NumberFormat, p: Payload)
    ensures (exists width: nat :: SameWidth(Rows(number, p), width))
        <==> forall s | s in p.students :: |s.grades| == |p.assignments|
  {
    RowWidths(number, p);
    hide Rows;
    var rows, n := Rows(number, p), |p.assignments| + 6;
    assert rows[0] in rows;
    if width: nat :| SameWidth(rows, width) {
      assert |rows[0]| == width == n;
      forall s | s in p.students
        ensures |s.grades| == |p.assignments|
      {
        var i :| 0 <= i < |p.students| && p.students[i] == s;
        assert rows[1 + i] in rows;
      }
    }
    if forall s | s in p.students :: |s.grades| == |p.assignments| {
      forall k | 0 <= k < |rows|
        ensures |rows[k]| == n
      {
        assert 0 < k < |rows| - 1 ==> p.students[k - 1] in p.students && rows[k] == rows[1 + (k - 1)];
      }
      assert SameWidth(rows, n);
    }
  }

  lemma ColumnOf(number: NumberFormat, p: Payload, j: nat)
    requires j < |p.assignments|
    ensures Headers(p)[2 + j] == p.assignments[j].title
    ensures SummaryRow(number, p)[2 + j] == FormatPercentage(number, p.assignments[j].average)
    ensures forall s: Student | j < |s.grades| :: StudentRow(number, s)[2 + j] == CellValue(number, s.grades[j])
  {
  }

  /** In the exported file the column of an assignment holds its title, each student's cell for it and
      its average. */
  lemma ColumnsAlign(number: NumberFormat, p: Payload, j: nat)
    requires j < |p.assignments| && forall s | s in p.students :: |s.grades| == |p.assignments|
    ensures
      var read := Read(Print(Rows(number, p)));
      && read.Some? && |read.value| == |p.students| + 2 && SameWidth(read.value, |p.assignments| + 6)
      && read.value[0][2 + j] == p.assignments[j].title
      && (forall i | 0 <= i < |p.students| :: read.value[1 + i][2 + j] == CellValue(number, p.students[i].grades[j]))
      && read.value[|p.students| + 1][2 + j] == FormatPercentage(number, p.assignments[j].average)
  {
    RowsHaveFields(number, p);
    RoundTripIff(Rows(number, p));
    RowsShape(number, p);
    hide *;
    RowsColumn(number, p, j);
  }

  lemma RowsShape(number: NumberFormat, p: Payload)
    requires forall s | s in p.students :: |s.grades| == |p.assignments|
    ensures |Rows(number, p)| == |p.students| + 2 && SameWidth(Rows(number, p), |p.assignments| + 6)
  {
    RowWidths(number, p);
    SameWidthIff(number, p);
    hide Rows;
    var rows := Rows(number, p);
    var width: nat :| SameWidth(rows, width);
    assert rows[0] in rows;
  }

  lemma RowsColumn(number: NumberFormat, p: Payload, j: nat)
    requires j < |p.assignments| && forall s | s in p.students :: |s.grades| == |p.assignments|
    requires |Rows(number, p)| == |p.students| + 2 && SameWidth(Rows(number, p), |p.assignments| + 6)
    ensures
      var rows := Rows(number, p);
      && (forall k | 0 <= k < |rows| :: |rows[k]| == |p.assignments| + 6)
      && rows[0][2 + j] == p.assignments[j].title
      && (forall i | 0 <= i < |p.students| :: rows[1 + i][2 + j] == CellValue(number, p.students[i].grades[j]))
      && rows[|p.students| + 1][2 + j] == FormatPercentage(number, p.assignments[j].average)
  {
    ColumnOf(number, p, j);
    RowsAt(number, p);
    hide Rows, Headers, StudentRow, SummaryRow, CellValue, FormatPercentage;
    var rows := Rows(number, p);
    forall k | 0 <= k < |rows|
      ensures |rows[k]| == |p.assignments| + 6
    {
      assert rows[k] in rows;
    }
    forall i | 0 <= i < |p.students|
      ensures rows[1 + i][2 + j] == CellValue(number, p.students[i].grades[j])
    {
      assert p.students[i] in p.students && rows[1 + i] == StudentRow(number, p.students[i]);
    }
  }

  lemma RowsAt(number: NumberFormat, p: Payload)
    ensures
      var rows := Rows(number, p);
      && |rows| == |p.students| + 2 && rows[0] == Headers(p) && rows[|p.students| + 1] == SummaryRow(number, p)
      && forall i | 0 <= i < |p.students| :: rows[1 + i] == StudentRow(number, p.students[i])
  {
    StudentRowsAt(number, p.students);
    hide Headers, StudentRow, SummaryRow, StudentRows;
  }
}
