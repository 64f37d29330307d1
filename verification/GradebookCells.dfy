/** What the cells of the exported gradebook show. */
module GradebookCells {
  import opened Wrappers
  import opened Text
  import opened Gradebook

  /** A missing cell says so whatever its grade; a grade is marked when late; no grade is a dash. */
  lemma CellShown(number: NumberFormat, cell: Cell)
    ensures cell.missing ==> CellValue(number, cell) == "MISSING"
    ensures !cell.missing && cell.grade.None? ==> CellValue(number, cell) == "-"
    ensures !cell.missing && cell.grade.Some? ==>
              CellValue(number, cell) == number(cell.grade.value) + if cell.late then " (LATE)" else ""
  {
    if cell.grade.Some? {
      assert number(cell.grade.value) + "" == number(cell.grade.value);
    }
  }

  /** A percentage has a sign; mastery also says how many standards of how many; nothing is a dash. */
  lemma PercentageShown(number: NumberFormat, value: Option<real>, mastered: nat, total: nat)
    ensures
      var shown := match value case Some(v) => number(v) + "%" case None => "-";
      && FormatPercentage(number, value) == shown
      && FormatMastery(number, Some(Mastery(value, mastered, total)))
         == shown + " (" + Digits(mastered) + "/" + Digits(total) + ")"
      && FormatMastery(number, None) == "-"
  {
    hide Digits;
  }

  /** The rows of the table: one header over one row per student, each about that student, over the class. */
  lemma RowsShown(number: NumberFormat, p: Payload)
    ensures
      var rows, n := Rows(number, p), |p.assignments|;
      && |rows| == |p.students| + 2
      && rows[0] == ["Student Name", "Email"] + Titles(p.assignments) + ["Course Average", "Missing", "Late", "Mastery"]
      && (forall i | 0 <= i < |p.students| ::
            var s := p.students[i];
            rows[1 + i] == [s.name, s.email] + CellValues(number, s.grades)
              + [FormatPercentage(number, s.average), Digits(s.missing), Digits(s.late),
                 FormatMastery(number, s.mastery)])
      && rows[|p.students| + 1]
         == ["Class Average", ""] + Averages(number, p.assignments)
            + [FormatPercentage(number, p.overallAverage),
               match p.studentsWithMissing case Some(k) => Digits(k) case None => "", "", ""]
  {
    RowsAt(number, p);
    hide Rows, Digits, FormatPercentage, FormatMastery;
  }
}
