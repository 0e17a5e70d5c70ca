/**
  The metrics step of the second script: the month of a row is the second
  `-`-separated segment of its date label, so a label without a `-` makes
  the month column, and with it the whole report, fail.
 */
module Analystics {
  import opened Outcomes
  import opened Text
  import opened Numbers
  import opened Pipeline
  import opened Queries

  /** `date.split("-")[1]`, or None where that index is out of range. */
  function LabelMonth(date: string): (r: Option<string>)
    ensures r.None? <==> '-' !in date
  {
    SplitSingle(date, '-');
    var parts := Split(date, '-');
    if |parts| >= 2 then Some(parts[1]) else None
  }

  /**
    The month segment is the text between the first `-` of the label and
    the next `-` (or the end of the label).
   */
  lemma {:induction false} LabelMonthSegment(date: string)
    ensures LabelMonth(date).Some? ==>
      var m := LabelMonth(date).value;
      && '-' !in m
      && exists k :: 0 <= k && k + 1 + |m| <= |date| && '-' !in date[..k] && date[k] == '-'
           && date[k + 1..k + 1 + |m|] == m && (k + 1 + |m| == |date| || date[k + 1 + |m|] == '-')
  {
    var parts := Split(date, '-');
    if |parts| >= 2 {
      SplitSpec(date, '-');
      SplitSecond(date, '-');
      var k := |parts[0]|;
      var m := parts[1];
      assert parts[0] == date[..k + 1 + |m|][..k];
      assert date[..k] == parts[0];
      assert date[k] == date[..k + 1 + |m|][k];
      assert date[k + 1..k + 1 + |m|] == date[..k + 1 + |m|][k + 1..];
    }
  }

  /** The month of one row, as the one-element piece of the month column, or the IndexError. */
  function MonthStep(): Row -> Result<seq<string>>
  {
    (row: Row) => match LabelMonth(row.date)
           case None => Failure(NoMonthSegment(row.date))
           case Some(m) => Success([m])
  }

  /**
    `transaction_data["date"].apply(lambda x: x.split("-")[1])`: the month
    column, built row by row; the first row without a month segment raises.
   */
  function LabelMonths(rows: seq<Row>): (r: Result<seq<string>>)
    ensures r.Success? ==> |r.value| == |rows|
  {
    CollectSingles(rows, MonthStep());
    Collect(rows, MonthStep())
  }

  /**
    The month column exists exactly when every date label has a `-`; it then
    holds each label's month segment, and otherwise the error names a label
    without one.
   */
  lemma {:induction false} LabelMonthsSpec(rows: seq<Row>)
    ensures LabelMonths(rows).Success? <==> forall i :: 0 <= i < |rows| ==> '-' in rows[i].date
    ensures LabelMonths(rows).Success? ==>
      forall i :: 0 <= i < |rows| ==> LabelMonth(rows[i].date) == Some(LabelMonths(rows).value[i])
    ensures LabelMonths(rows).Failure? ==>
      exists i :: 0 <= i < |rows| && '-' !in rows[i].date && LabelMonths(rows).error == NoMonthSegment(rows[i].date)
  {
    var step := MonthStep();
    CollectSucceeds(rows, step);
    CollectSingles(rows, step);
    CollectFails(rows, step);
    assert forall i :: 0 <= i < |rows| ==> (step(rows[i]).Success? <==> '-' in rows[i].date);
  }

  /** The error is the one of the first row whose label has no `-`. */
  lemma {:induction false} LabelMonthsFirstFailure(rows: seq<Row>, i: nat)
    requires i < |rows| && '-' !in rows[i].date
    requires forall j :: 0 <= j < i ==> '-' in rows[j].date
    ensures LabelMonths(rows) == Failure(NoMonthSegment(rows[i].date))
  {
    var step := MonthStep();
    CollectSucceeds(rows[..i], step);
    assert forall j :: 0 <= j < i ==> rows[..i][j] == rows[j];
    CollectFirstFailure(rows, step, i);
  }

  /** The report of the second script. */
  function MetricsOf(rows: seq<Row>): Result<Report>
  {
    MetricsWith(rows, LabelMonths(rows))
  }

  /**
    How the second script's report fails: an empty table and only an empty
    table gives `EmptyTable`; a non-numeric best product comes next; past
    that, the report exists exactly when every date label has a month
    segment, and otherwise fails with the month column's error.
   */
  lemma {:induction false} MetricsOfFailures(rows: seq<Row>)
    ensures rows == [] <==> MetricsOf(rows) == Failure(EmptyTable)
    ensures rows != [] && ParseInt(BestProduct(rows)).None? ==>
      MetricsOf(rows) == Failure(NonNumericProductId(BestProduct(rows)))
    ensures ReachesMonthStep(rows) ==>
      (MetricsOf(rows).Success? <==> forall i :: 0 <= i < |rows| ==> '-' in rows[i].date)
    ensures ReachesMonthStep(rows) && LabelMonths(rows).Failure? ==>
      MetricsOf(rows) == Failure(LabelMonths(rows).error) && MetricsOf(rows).error.NoMonthSegment?
  {
    LabelMonthsSpec(rows);
    MetricsFailures(rows, LabelMonths(rows));
  }

  /**
    The top-staff map has one entry per month segment of the date labels,
    and each entry's staff id took the most in that month.
   */
  lemma {:induction false} TopStaffByLabel(rows: seq<Row>)
    ensures MetricsOf(rows).Success? ==>
      var top, ms := MetricsOf(rows).value.topStaff, LabelMonths(rows).value;
      && (forall m :: m in top <==> exists i :: 0 <= i < |rows| && LabelMonth(rows[i].date) == Some(m))
      && (forall m :: m in top ==>
            forall i :: 0 <= i < |rows| && ms[i] == m ==>
              StaffMonthValue(rows, ms, m, rows[i].staffId) <= StaffMonthValue(rows, ms, m, top[m]))
  {
    if MetricsOf(rows).Success? {
      var ms := LabelMonths(rows).value;
      MetricsStaff(rows, ms);
      LabelMonthsSpec(rows);
      LabelMonthKeys(rows, ms);
    }
  }

  lemma {:induction false} LabelMonthKeys(rows: seq<Row>, ms: seq<string>)
    requires |ms| == |rows|
    requires forall i :: 0 <= i < |rows| ==> LabelMonth(rows[i].date) == Some(ms[i])
    ensures forall m :: m in ms <==> exists i :: 0 <= i < |rows| && LabelMonth(rows[i].date) == Some(m)
  {
    forall m
      ensures m in ms <==> exists i :: 0 <= i < |rows| && LabelMonth(rows[i].date) == Some(m)
    {
      if m in ms {
        var k :| 0 <= k < |ms| && ms[k] == m;
        assert LabelMonth(rows[k].date) == Some(m);
      }
      if exists i :: 0 <= i < |rows| && LabelMonth(rows[i].date) == Some(m) {
        var k :| 0 <= k < |rows| && LabelMonth(rows[k].date) == Some(m);
        assert ms[k] == m;
      }
    }
  }

  /**
    `metrics`: fails on an empty table, then on a non-numeric best product,
    then on a date label without a month segment, in each case before
    touching the table; otherwise adds the month column, then the hour
    column, and returns the report of the table's rows.
   */
  method Metrics(t: Table) returns (r: Result<Report>)
    modifies t
    ensures r == MetricsOf(t.rows)
    ensures t.month == (if ReachesMonthStep(t.rows) && LabelMonths(t.rows).Success?
                        then Some(LabelMonths(t.rows).value) else old(t.month))
    ensures t.hour == (if r.Success? then Some(Hours(t.rows)) else old(t.hour))
  {
    var rows := t.rows;
    if rows == [] {
      return Failure(EmptyTable);
    }
    var product := BestProduct(rows);
    var productId := ParseInt(product);
    if productId.None? {
      return Failure(NonNumericProductId(product));
    }
    var months := LabelMonths(rows);
    if months.Failure? {
      return Failure(months.error);
    }
    t.month := Some(months.value);
    t.hour := Some(Hours(rows));
    r := Success(ReportOf(rows, months.value, productId.value));
  }
}
