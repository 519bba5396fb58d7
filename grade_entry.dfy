/**
 * The grade-entry page: an editable list of (subject, grade) rows, the
 * projected GPA shown beside it and the validation run before the grades are
 * sent. Grades are percentages typed as text; the number parser is supplied
 * by the caller.
 */
module GradeEntry {
  import opened Wrappers
  import opened Text
  import opened Lists

  datatype Row = Row(subject: string, grade: string)

  datatype Field = Subject | Grade

  const EmptyRow: Row := Row("", "")

  /** A row counts when its trimmed subject is non-empty and its grade parses
      to a number that is at least 0. */
  predicate IsValid(parse: NumberParser, row: Row)
    ensures IsValid(parse, row) ==> GradeValue(parse, row) >= 0.0
    ensures Blank(row.subject) ==> !IsValid(parse, row)
  {
    Trim(row.subject) != "" && parse(row.grade).Some? && parse(row.grade).value >= 0.0
  }

  /** The valid rows, in their order. */
  function ValidRows(parse: NumberParser, rows: seq<Row>): (r: seq<Row>)
    ensures |r| <= |rows|
    ensures forall row :: row in r <==> row in rows && IsValid(parse, row)
  {
    Filter(row => IsValid(parse, row), rows)
  }

  /** The parsed grade of a row (only ever read on valid rows). */
  function GradeValue(parse: NumberParser, row: Row): real {
    parse(row.grade).GetOr(0.0)
  }

  /** `rows.reduce((sum, g) => sum + parseFloat(g.grade), 0)` */
  function Total(parse: NumberParser, rows: seq<Row>): real
    decreases |rows|
  {
    if rows == [] then 0.0 else GradeValue(parse, rows[0]) + Total(parse, rows[1..])
  }

  /** The projected GPA: the mean of the valid grades, 0 when there is none. */
  function ProjectedGpa(parse: NumberParser, rows: seq<Row>): (g: real)
    ensures |ValidRows(parse, rows)| == 0 ==> g == 0.0
    ensures |ValidRows(parse, rows)| > 0 ==>
      MinGrade(parse, ValidRows(parse, rows)) <= g <= MaxGrade(parse, ValidRows(parse, rows))
  {
    var valid := ValidRows(parse, rows);
    if |valid| == 0 then 0.0
    else
      MeanOfRows(parse, valid);
      Total(parse, valid) / (|valid| as real)
  }

  function MinGrade(parse: NumberParser, rows: seq<Row>): (m: real)
    requires |rows| > 0
    ensures forall i :: 0 <= i < |rows| ==> m <= GradeValue(parse, rows[i])
    ensures exists i :: 0 <= i < |rows| && m == GradeValue(parse, rows[i])
    decreases |rows|
  {
    if |rows| == 1 then GradeValue(parse, rows[0])
    else
      var m := MinGrade(parse, rows[1..]);
      assert exists i :: 1 <= i < |rows| && m == GradeValue(parse, rows[i]) by {
        var j :| 0 <= j < |rows[1..]| && m == GradeValue(parse, rows[1..][j]);
        assert rows[1..][j] == rows[j + 1];
      }
      if GradeValue(parse, rows[0]) <= m then GradeValue(parse, rows[0]) else m
  }

  function MaxGrade(parse: NumberParser, rows: seq<Row>): (m: real)
    requires |rows| > 0
    ensures forall i :: 0 <= i < |rows| ==> GradeValue(parse, rows[i]) <= m
    ensures exists i :: 0 <= i < |rows| && m == GradeValue(parse, rows[i])
    decreases |rows|
  {
    if |rows| == 1 then GradeValue(parse, rows[0])
    else
      var m := MaxGrade(parse, rows[1..]);
      assert exists i :: 1 <= i < |rows| && m == GradeValue(parse, rows[i]) by {
        var j :| 0 <= j < |rows[1..]| && m == GradeValue(parse, rows[1..][j]);
        assert rows[1..][j] == rows[j + 1];
      }
      if GradeValue(parse, rows[0]) >= m then GradeValue(parse, rows[0]) else m
  }

  lemma {:induction false} TotalBounds(parse: NumberParser, rows: seq<Row>, lo: real, hi: real)
    requires forall i :: 0 <= i < |rows| ==> lo <= GradeValue(parse, rows[i]) <= hi
    ensures (|rows| as real) * lo <= Total(parse, rows) <= (|rows| as real) * hi
    decreases |rows|
  {
    if rows != [] {
      TotalBounds(parse, rows[1..], lo, hi);
    }
  }

  lemma MeanBetween(total: real, count: nat, lo: real, hi: real)
    requires count > 0 && (count as real) * lo <= total <= (count as real) * hi
    ensures lo <= total / (count as real) <= hi
  {
    var n := count as real;
    assert total == (total / n) * n;
  }

  /** When every grade lies in [lo, hi], so does their mean. */
  lemma MeanWithin(parse: NumberParser, rows: seq<Row>, lo: real, hi: real)
    requires |rows| > 0
    requires forall i :: 0 <= i < |rows| ==> lo <= GradeValue(parse, rows[i]) <= hi
    ensures lo <= Total(parse, rows) / (|rows| as real) <= hi
  {
    TotalBounds(parse, rows, lo, hi);
    MeanBetween(Total(parse, rows), |rows|, lo, hi);
  }

  /** The mean of a non-empty list of rows lies between its extremes. */
  lemma MeanOfRows(parse: NumberParser, rows: seq<Row>)
    requires |rows| > 0
    ensures MinGrade(parse, rows) <= Total(parse, rows) / (|rows| as real) <= MaxGrade(parse, rows)
  {
    MeanWithin(parse, rows, MinGrade(parse, rows), MaxGrade(parse, rows));
  }

  /** With no valid row the projection is 0; otherwise it is the mean of the
      valid grades, so it lies between their minimum and maximum and is never
      negative. */
  lemma ProjectedGpaIsMean(parse: NumberParser, rows: seq<Row>)
    ensures |ValidRows(parse, rows)| == 0 ==> ProjectedGpa(parse, rows) == 0.0
    ensures |ValidRows(parse, rows)| > 0 ==>
      MinGrade(parse, ValidRows(parse, rows)) <= ProjectedGpa(parse, rows) <= MaxGrade(parse, ValidRows(parse, rows))
    ensures ProjectedGpa(parse, rows) >= 0.0
  {
    var valid := ValidRows(parse, rows);
    if |valid| > 0 {
      MeanOfRows(parse, valid);
      var j :| 0 <= j < |valid| && MinGrade(parse, valid) == GradeValue(parse, valid[j]);
      assert IsValid(parse, valid[j]);
    }
  }

  // ------------------------------------------------------------ submit

  datatype SubmitError = NoValidGrade | GradeOutOfRange

  /** The message the page shows for each refusal. */
  function Message(e: SubmitError): string {
    match e
    case NoValidGrade => "Please enter at least one valid grade"
    case GradeOutOfRange => "Please ensure all grades are numbers between 0 and 100"
  }

  /** A grade as sent to the server: trimmed subject, parsed grade. */
  datatype SubmittedGrade = SubmittedGrade(subject: string, grade: real)

  /** A row with a subject whose grade is not a number in 0..100. */
  predicate IsOutOfRange(parse: NumberParser, row: Row) {
    Trim(row.subject) != "" &&
    (parse(row.grade).None? || parse(row.grade).value < 0.0 || parse(row.grade).value > 100.0)
  }

  function Formatted(parse: NumberParser, row: Row): SubmittedGrade {
    SubmittedGrade(Trim(row.subject), GradeValue(parse, row))
  }

  /** The submit handler's validation and payload. */
  function Submit(parse: NumberParser, rows: seq<Row>): (r: Result<seq<SubmittedGrade>, SubmitError>)
    ensures r == Failure(NoValidGrade) <==> |ValidRows(parse, rows)| == 0
    ensures r.Success? ==> |r.value| == |ValidRows(parse, rows)| > 0
  {
    var valid := ValidRows(parse, rows);
    if |valid| == 0 then Failure(NoValidGrade)
    else if |Filter(row => IsOutOfRange(parse, row), rows)| > 0 then Failure(GradeOutOfRange)
    else Success(Map(row => Formatted(parse, row), valid))
  }

  /** Submit goes through exactly when some row is valid and every row with a
      subject has a grade that is a number in 0..100. */
  lemma SubmitAcceptedIff(parse: NumberParser, rows: seq<Row>)
    ensures Submit(parse, rows).Success? <==>
      |ValidRows(parse, rows)| > 0 &&
      forall i :: 0 <= i < |rows| && Trim(rows[i].subject) != "" ==>
        parse(rows[i].grade).Some? && 0.0 <= parse(rows[i].grade).value <= 100.0
  {
    FilterEmpty(row => IsOutOfRange(parse, row), rows);
  }

  /** What is sent: the valid rows in order, with trimmed non-empty subjects
      and grades in 0..100. */
  lemma SubmittedGrades(parse: NumberParser, rows: seq<Row>)
    requires Submit(parse, rows).Success?
    ensures var sent := Submit(parse, rows).value;
      var valid := ValidRows(parse, rows);
      |sent| == |valid| &&
      forall k :: 0 <= k < |sent| ==>
        && sent[k].subject == Trim(valid[k].subject)
        && sent[k].subject != "" && Trim(sent[k].subject) == sent[k].subject
        && Some(sent[k].grade) == parse(valid[k].grade)
        && 0.0 <= sent[k].grade <= 100.0
  {
    var sent := Submit(parse, rows).value;
    var valid := ValidRows(parse, rows);
    SubmitAcceptedIff(parse, rows);
    forall k | 0 <= k < |sent|
      ensures sent[k].subject == Trim(valid[k].subject)
      ensures sent[k].subject != "" && Trim(sent[k].subject) == sent[k].subject
      ensures Some(sent[k].grade) == parse(valid[k].grade)
      ensures 0.0 <= sent[k].grade <= 100.0
    {
      assert IsValid(parse, valid[k]);
      assert valid[k] in rows;
      TrimIdempotent(valid[k].subject);
    }
  }

  // -------------------------------------------------------- row editing

  function WithField(row: Row, field: Field, value: string): Row {
    match field
    case Subject => row.(subject := value)
    case Grade => row.(grade := value)
  }

  /** The rows of the grade form. The page starts with one empty row and its
      remove button never takes the last one away. */
  class GradeForm {
    var rows: seq<Row>

    ghost predicate Valid()
      reads this
    {
      |rows| >= 1
    }

    constructor ()
      ensures Valid() && rows == [EmptyRow]
    {
      rows := [EmptyRow];
    }

    /** `addGradeField` */
    method AddRow()
      requires Valid()
      modifies this
      ensures Valid()
      ensures rows == old(rows) + [EmptyRow]
    {
      rows := rows + [EmptyRow];
    }

    /** `removeGradeField`: with more than one row, drops the row at `index`
        (nothing when the index is outside the list); with one row, does
        nothing. */
    method RemoveRow(index: int)
      requires Valid()
      modifies this
      ensures Valid()
      ensures |old(rows)| > 1 && 0 <= index < |old(rows)| ==>
        |rows| == |old(rows)| - 1 && rows == old(rows)[..index] + old(rows)[index + 1..]
      ensures !(|old(rows)| > 1 && 0 <= index < |old(rows)|) ==> rows == old(rows)
    {
      if |rows| > 1 {
        rows := RemoveAt(rows, index);
      }
    }

    /** `updateGradeField`: writes one field of the row at `index`. */
    method UpdateRow(index: int, field: Field, value: string)
      requires Valid() && 0 <= index < |rows|
      modifies this
      ensures Valid() && |rows| == |old(rows)|
      ensures forall i :: 0 <= i < |rows| && i != index ==> rows[i] == old(rows)[i]
      ensures field == Subject ==> rows[index] == Row(value, old(rows)[index].grade)
      ensures field == Grade ==> rows[index] == Row(old(rows)[index].subject, value)
    {
      rows := rows[index := WithField(rows[index], field, value)];
    }
  }
}
