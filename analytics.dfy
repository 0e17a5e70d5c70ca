/**
  The metrics step of the first script: the month of a row is read off its
  timestamp, as a two-digit string, and the five queries run over the table,
  which gains its `month` and `hour` columns as they are computed.
 */
module Analytics {
  import opened Outcomes
  import opened Numbers
  import opened Pipeline
  import opened Queries

  /** `strftime("%m")` of every row's timestamp: the month as two digits. */
  function TimestampMonths(rows: seq<Row>): (ms: seq<string>)
    ensures |ms| == |rows|
    ensures forall i :: 0 <= i < |rows| ==>
      |ms[i]| == 2 && AllDigits(ms[i]) && DigitsValue(ms[i]) == rows[i].time.month
  {
    seq(|rows|, i requires 0 <= i < |rows| => Pad2(rows[i].time.month))
  }

  /** Two rows share a month key exactly when their timestamps share a month. */
  lemma {:induction false} TimestampMonthsGroupByMonth(rows: seq<Row>, i: nat, j: nat)
    requires i < |rows| && j < |rows|
    ensures TimestampMonths(rows)[i] == TimestampMonths(rows)[j] <==> rows[i].time.month == rows[j].time.month
  {
    var ms := TimestampMonths(rows);
    if ms[i] == ms[j] {
      assert DigitsValue(ms[i]) == DigitsValue(ms[j]);
    }
  }

  /** The report of the first script. */
  function MetricsOf(rows: seq<Row>): Result<Report>
  {
    MetricsWith(rows, Success(TimestampMonths(rows)))
  }

  /**
    The month column never fails here, so the report fails only on an empty
    table or a non-numeric best product, each with its own error.
   */
  lemma {:induction false} MetricsOfFailures(rows: seq<Row>)
    ensures MetricsOf(rows).Success? <==> rows != [] && ParseInt(BestProduct(rows)).Some?
    ensures rows == [] <==> MetricsOf(rows) == Failure(EmptyTable)
    ensures rows != [] && ParseInt(BestProduct(rows)).None? ==>
      MetricsOf(rows) == Failure(NonNumericProductId(BestProduct(rows)))
  {
    MetricsFailures(rows, Success(TimestampMonths(rows)));
  }

  /** The month keys are the two-digit forms of the months the timestamps carry. */
  lemma {:induction false} TimestampMonthKeys(rows: seq<Row>)
    ensures forall m :: m in TimestampMonths(rows) <==> exists i :: 0 <= i < |rows| && m == Pad2(rows[i].time.month)
  {
    var ms := TimestampMonths(rows);
    forall m
      ensures m in ms <==> exists i :: 0 <= i < |rows| && m == Pad2(rows[i].time.month)
    {
      if m in ms {
        var k :| 0 <= k < |ms| && ms[k] == m;
        assert m == Pad2(rows[k].time.month);
      }
      if exists i :: 0 <= i < |rows| && m == Pad2(rows[i].time.month) {
        var k :| 0 <= k < |rows| && m == Pad2(rows[k].time.month);
        assert ms[k] == m;
      }
    }
  }

  /**
    The top-staff map has one entry per calendar month present in the
    timestamps, keyed by its two-digit form, and each entry's staff id sold
    in that month and took the most in it.
   */
  lemma {:induction false} TopStaffByTimestamp(rows: seq<Row>)
    ensures MetricsOf(rows).Success? ==>
      var top, ms := MetricsOf(rows).value.topStaff, TimestampMonths(rows);
      && (forall m :: m in top <==> exists i :: 0 <= i < |rows| && m == Pad2(rows[i].time.month))
      && (forall m :: m in top ==>
            forall i :: 0 <= i < |rows| && ms[i] == m ==>
              StaffMonthValue(rows, ms, m, rows[i].staffId) <= StaffMonthValue(rows, ms, m, top[m]))
  {
    MetricsStaff(rows, TimestampMonths(rows));
    TimestampMonthKeys(rows);
  }

  /**
    `calculate_metrics`: fails on an empty table and on a non-numeric best
    product before touching the table; otherwise adds the month column, then
    the hour column, and returns the report of the table's rows.
   */
  method CalculateMetrics(t: Table) returns (r: Result<Report>)
    modifies t
    ensures r == MetricsOf(t.rows)
    ensures t.month == (if ReachesMonthStep(t.rows) then Some(TimestampMonths(t.rows)) else old(t.month))
    ensures t.hour == (if r.Success? then Some(Hours(t.rows)) else old(t.hour))
  {
    var rows := t.rows;
    if rows == [] {
      return Failure(EmptyTable);
    }
    var product := BestProduct(rows);
    var productId := ParseInt(product);
    if productId.None? {
      return Failure(NonNumericProductId(product));
    }
    var months := TimestampMonths(rows);
    t.month := Some(months);
    t.hour := Some(Hours(rows));
    r := Success(ReportOf(rows, months, productId.value));
  }
}
