/**
  The five group-by, reduce, argmax queries both scripts run on the table.

  A pandas group-by with a sum (or mean) followed by `max()` and `idxmax()`
  is modelled by a per-key aggregate over a key column and `ArgMax`, which
  picks the key with the largest aggregate. pandas sorts group keys and
  `idxmax` returns the first maximal entry, so among tied keys the smallest
  one wins; `ArgMax` states that tie rule directly.
 */
module Queries {
  import opened Outcomes
  import opened Text
  import opened Numbers
  import opened Pipeline

  /** A group key: a string column (date, product id, month) or an integer one (staff id, hour). */
  datatype Key = Str(s: string) | Int(i: int)

  /** The order pandas sorts group keys in: code points for strings, numeric for integers. */
  predicate KeyLess(a: Key, b: Key)
  {
    match (a, b)
    case (Str(x), Str(y)) => StrLess(x, y)
    case (Int(x), Int(y)) => x < y
    case (Int(_), Str(_)) => true
    case (Str(_), Int(_)) => false
  }

  lemma KeyLessIrreflexive(a: Key)
    ensures !KeyLess(a, a)
  {
    if a.Str? {
      StrLessIrreflexive(a.s);
    }
  }

  lemma KeyLessTransitive(a: Key, b: Key, c: Key)
    requires KeyLess(a, b) && KeyLess(b, c)
    ensures KeyLess(a, c)
  {
    if a.Str? && b.Str? && c.Str? {
      StrLessTransitive(a.s, b.s, c.s);
    }
  }

  // ---------------------------------------------------------------- aggregates

  /** `groupby(key)["quantity"].sum()` at key `k`: the quantities of the rows whose key is `k`. */
  function QuantitySum(rows: seq<Row>, keys: seq<Key>, k: Key): int
    requires |keys| == |rows|
  {
    if rows == [] then 0
    else
      var n := |rows| - 1;
      QuantitySum(rows[..n], keys[..n], k) + (if keys[n] == k then rows[n].quantity else 0)
  }

  /** `groupby(key)["sales_amount"].sum()` at key `k`. */
  function AmountSum(rows: seq<Row>, keys: seq<Key>, k: Key): real
    requires |keys| == |rows|
  {
    if rows == [] then 0.0
    else
      var n := |rows| - 1;
      AmountSum(rows[..n], keys[..n], k) + (if keys[n] == k then rows[n].amount else 0.0)
  }

  /** The size of group `k`. */
  function KeyCount(keys: seq<Key>, k: Key): (n: nat)
    ensures n <= |keys|
    ensures n > 0 <==> k in keys
  {
    if keys == [] then 0
    else
      var init := keys[..|keys| - 1];
      assert keys == init + [keys[|keys| - 1]];
      KeyCount(init, k) + (if keys[|keys| - 1] == k then 1 else 0)
  }

  /** Sums over two runs of rows add up. */
  lemma {:induction false} AmountSumAppend(a: seq<Row>, ka: seq<Key>, b: seq<Row>, kb: seq<Key>, k: Key)
    requires |ka| == |a| && |kb| == |b|
    ensures AmountSum(a + b, ka + kb, k) == AmountSum(a, ka, k) + AmountSum(b, kb, k)
  {
    if b != [] {
      var n := |b| - 1;
      assert (a + b)[..|a + b| - 1] == a + b[..n];
      assert (ka + kb)[..|ka + kb| - 1] == ka + kb[..n];
      AmountSumAppend(a, ka, b[..n], kb[..n], k);
    } else {
      assert a + b == a && ka + kb == ka;
    }
  }

  lemma {:induction false} QuantitySumAppend(a: seq<Row>, ka: seq<Key>, b: seq<Row>, kb: seq<Key>, k: Key)
    requires |ka| == |a| && |kb| == |b|
    ensures QuantitySum(a + b, ka + kb, k) == QuantitySum(a, ka, k) + QuantitySum(b, kb, k)
  {
    if b != [] {
      var n := |b| - 1;
      assert (a + b)[..|a + b| - 1] == a + b[..n];
      assert (ka + kb)[..|ka + kb| - 1] == ka + kb[..n];
      QuantitySumAppend(a, ka, b[..n], kb[..n], k);
    } else {
      assert a + b == a && ka + kb == ka;
    }
  }

  // ---------------------------------------------------------------- argmax

  /**
    `series.idxmax()` over the groups of a key column: a key of the column
    whose score is the largest, and among the keys with that score the
    smallest, which is the one pandas' sorted group-by lists first.
   */
  function ArgMax(keys: seq<Key>, score: Key -> real): (best: Key)
    requires |keys| > 0
    ensures best in keys
    ensures forall j :: 0 <= j < |keys| ==> score(keys[j]) <= score(best)
    ensures forall j :: 0 <= j < |keys| && score(keys[j]) == score(best) ==> !KeyLess(keys[j], best)
  {
    if |keys| == 1 then
      KeyLessIrreflexive(keys[0]);
      keys[0]
    else
      var init := keys[..|keys| - 1];
      var b := ArgMax(init, score);
      var x := keys[|keys| - 1];
      assert keys == init + [x];
      if score(x) > score(b) || (score(x) == score(b) && KeyLess(x, b)) then
        ArgMaxTakesLast(init, score, b, x);
        x
      else
        b
  }

  /** The step of `ArgMax` that replaces the best key so far by a better last key. */
  lemma ArgMaxTakesLast(init: seq<Key>, score: Key -> real, b: Key, x: Key)
    requires forall j :: 0 <= j < |init| ==> score(init[j]) <= score(b)
    requires forall j :: 0 <= j < |init| && score(init[j]) == score(b) ==> !KeyLess(init[j], b)
    requires score(x) > score(b) || (score(x) == score(b) && KeyLess(x, b))
    ensures forall j :: 0 <= j < |init + [x]| ==> score((init + [x])[j]) <= score(x)
    ensures forall j :: 0 <= j < |init + [x]| && score((init + [x])[j]) == score(x) ==> !KeyLess((init + [x])[j], x)
  {
    KeyLessIrreflexive(x);
    forall j | 0 <= j < |init| && score(init[j]) == score(x)
      ensures !KeyLess(init[j], x)
    {
      if KeyLess(init[j], x) {
        KeyLessTransitive(init[j], x, b);
      }
    }
  }

  // ---------------------------------------------------------------- key columns

  function DateKeys(rows: seq<Row>): (ks: seq<Key>)
    ensures |ks| == |rows| && forall i :: 0 <= i < |rows| ==> ks[i] == Str(rows[i].date)
  {
    seq(|rows|, i requires 0 <= i < |rows| => Str(rows[i].date))
  }

  function ProductKeys(rows: seq<Row>): (ks: seq<Key>)
    ensures |ks| == |rows| && forall i :: 0 <= i < |rows| ==> ks[i] == Str(rows[i].productId)
  {
    seq(|rows|, i requires 0 <= i < |rows| => Str(rows[i].productId))
  }

  function StaffKeys(rows: seq<Row>): (ks: seq<Key>)
    ensures |ks| == |rows| && forall i :: 0 <= i < |rows| ==> ks[i] == Int(rows[i].staffId)
  {
    seq(|rows|, i requires 0 <= i < |rows| => Int(rows[i].staffId))
  }

  /** The `hour` column, `transaction_time.dt.hour`. */
  function Hours(rows: seq<Row>): (hs: seq<int>)
    ensures |hs| == |rows| && forall i :: 0 <= i < |rows| ==> hs[i] == rows[i].time.hour
  {
    seq(|rows|, i requires 0 <= i < |rows| => rows[i].time.hour as int)
  }

  function HourKeys(rows: seq<Row>): (ks: seq<Key>)
    ensures |ks| == |rows| && forall i :: 0 <= i < |rows| ==> ks[i] == Int(rows[i].time.hour)
  {
    seq(|rows|, i requires 0 <= i < |rows| => Int(rows[i].time.hour))
  }

  // ---------------------------------------------------------------- the queries

  /** Units sold on day `d`. */
  function DayVolume(rows: seq<Row>, d: string): int
  {
    QuantitySum(rows, DateKeys(rows), Str(d))
  }

  /** Money taken on day `d`, counting each row's (transaction-wide) amount. */
  function DayValue(rows: seq<Row>, d: string): real
  {
    AmountSum(rows, DateKeys(rows), Str(d))
  }

  /** Units sold of product `p`. */
  function ProductVolume(rows: seq<Row>, p: string): int
  {
    QuantitySum(rows, ProductKeys(rows), Str(p))
  }

  /** The mean quantity of the rows stamped in hour `h`. */
  function HourMean(rows: seq<Row>, h: int): real
  {
    var n := KeyCount(HourKeys(rows), Int(h));
    if n == 0 then 0.0 else QuantitySum(rows, HourKeys(rows), Int(h)) as real / n as real
  }

  function VolumeScore(rows: seq<Row>): Key -> real
  {
    k => QuantitySum(rows, DateKeys(rows), k) as real
  }

  function ValueScore(rows: seq<Row>): Key -> real
  {
    k => AmountSum(rows, DateKeys(rows), k)
  }

  function ProductScore(rows: seq<Row>): Key -> real
  {
    k => QuantitySum(rows, ProductKeys(rows), k) as real
  }

  function HourScore(rows: seq<Row>): Key -> real
  {
    k => var n := KeyCount(HourKeys(rows), k);
         if n == 0 then 0.0 else QuantitySum(rows, HourKeys(rows), k) as real / n as real
  }

  /**
    `volume_of_sales_day.idxmax()`: a date of the table with the largest
    number of units sold; of tied dates, the first in code-point order.
   */
  function PeakVolumeDay(rows: seq<Row>): string
    requires |rows| > 0
  {
    var keys := DateKeys(rows);
    var best := ArgMax(keys, VolumeScore(rows));
    assert best in keys;
    best.s
  }

  /**
    The peak-volume day is a date of the table, no date sold more units, and
    no tied date comes before it in code-point order.
   */
  lemma {:induction false} PeakVolumeDaySpec(rows: seq<Row>)
    requires |rows| > 0
    ensures exists i :: 0 <= i < |rows| && rows[i].date == PeakVolumeDay(rows)
    ensures forall i :: 0 <= i < |rows| ==> DayVolume(rows, rows[i].date) <= DayVolume(rows, PeakVolumeDay(rows))
    ensures forall i :: 0 <= i < |rows| && DayVolume(rows, rows[i].date) == DayVolume(rows, PeakVolumeDay(rows)) ==>
      !StrLess(rows[i].date, PeakVolumeDay(rows))
  {
    var keys := DateKeys(rows);
    var best := ArgMax(keys, VolumeScore(rows));
  }

  /** `sales_value_day.idxmax()`: a date with the largest summed amount; ties to the first date. */
  function PeakValueDay(rows: seq<Row>): string
    requires |rows| > 0
  {
    var keys := DateKeys(rows);
    var best := ArgMax(keys, ValueScore(rows));
    assert best in keys;
    best.s
  }

  /**
    The peak-value day is a date of the table, no date took more money, and
    no tied date comes before it in code-point order.
   */
  lemma {:induction false} PeakValueDaySpec(rows: seq<Row>)
    requires |rows| > 0
    ensures exists i :: 0 <= i < |rows| && rows[i].date == PeakValueDay(rows)
    ensures forall i :: 0 <= i < |rows| ==> DayValue(rows, rows[i].date) <= DayValue(rows, PeakValueDay(rows))
    ensures forall i :: 0 <= i < |rows| && DayValue(rows, rows[i].date) == DayValue(rows, PeakValueDay(rows)) ==>
      !StrLess(rows[i].date, PeakValueDay(rows))
  {
    var keys := DateKeys(rows);
    var best := ArgMax(keys, ValueScore(rows));
  }

  /** `productID_volume.idxmax()`: a product id with the most units sold; ties to the first id. */
  function BestProduct(rows: seq<Row>): string
    requires |rows| > 0
  {
    var keys := ProductKeys(rows);
    var best := ArgMax(keys, ProductScore(rows));
    assert best in keys;
    best.s
  }

  /**
    The best-selling product id occurs in the table, no product sold more
    units, and no tied id comes before it in code-point order.
   */
  lemma {:induction false} BestProductSpec(rows: seq<Row>)
    requires |rows| > 0
    ensures exists i :: 0 <= i < |rows| && rows[i].productId == BestProduct(rows)
    ensures forall i :: 0 <= i < |rows| ==> ProductVolume(rows, rows[i].productId) <= ProductVolume(rows, BestProduct(rows))
    ensures forall i :: 0 <= i < |rows| && ProductVolume(rows, rows[i].productId) == ProductVolume(rows, BestProduct(rows)) ==>
      !StrLess(rows[i].productId, BestProduct(rows))
  {
    var keys := ProductKeys(rows);
    var best := ArgMax(keys, ProductScore(rows));
  }

  /**
    `hourly_avg_volume.idxmax()`: an hour of the day, present in the table,
    whose rows have the largest mean quantity; ties to the earliest hour.
   */
  function PeakHour(rows: seq<Row>): int
    requires |rows| > 0
  {
    var keys := HourKeys(rows);
    var best := ArgMax(keys, HourScore(rows));
    assert best in keys;
    best.i
  }

  /**
    The peak hour is an hour of the day that occurs in the table, no hour of
    the table has a larger mean quantity, and of tied hours it is the earliest.
   */
  lemma {:induction false} PeakHourSpec(rows: seq<Row>)
    requires |rows| > 0
    ensures 0 <= PeakHour(rows) <= 23
    ensures exists i :: 0 <= i < |rows| && rows[i].time.hour == PeakHour(rows)
    ensures forall i :: 0 <= i < |rows| ==> HourMean(rows, rows[i].time.hour) <= HourMean(rows, PeakHour(rows))
    ensures forall i :: 0 <= i < |rows| && HourMean(rows, rows[i].time.hour) == HourMean(rows, PeakHour(rows)) ==>
      PeakHour(rows) <= rows[i].time.hour
  {
    var keys := HourKeys(rows);
    var best := ArgMax(keys, HourScore(rows));
  }

  // ---------------------------------------------------------------- top staff per month

  /** The rows whose month (in the parallel `months` column) is `m`. */
  function RowsIn(rows: seq<Row>, months: seq<string>, m: string): (r: seq<Row>)
    requires |months| == |rows|
    ensures |r| <= |rows|
    ensures forall row :: row in r ==> exists i :: 0 <= i < |rows| && months[i] == m && rows[i] == row
    ensures forall i :: 0 <= i < |rows| && months[i] == m ==> rows[i] in r
  {
    if rows == [] then []
    else
      var n := |rows| - 1;
      var init := RowsIn(rows[..n], months[..n], m);
      assert forall i :: 0 <= i < n ==> rows[..n][i] == rows[i] && months[..n][i] == months[i];
      init + (if months[n] == m then [rows[n]] else [])
  }

  /** The amount staff member `s` took in month `m`: the `(month, sales_staff_id)` group sum. */
  function StaffMonthValue(rows: seq<Row>, months: seq<string>, m: string, s: int): real
    requires |months| == |rows|
  {
    if rows == [] then 0.0
    else
      var n := |rows| - 1;
      StaffMonthValue(rows[..n], months[..n], m, s)
        + (if months[n] == m && rows[n].staffId == s then rows[n].amount else 0.0)
  }

  /** Summing by staff within the rows of month `m` is summing by `(month, staff)`. */
  lemma {:induction false} RowsInSum(rows: seq<Row>, months: seq<string>, m: string, s: int)
    requires |months| == |rows|
    ensures var r := RowsIn(rows, months, m);
      AmountSum(r, StaffKeys(r), Int(s)) == StaffMonthValue(rows, months, m, s)
  {
    if rows != [] {
      var n := |rows| - 1;
      var init := RowsIn(rows[..n], months[..n], m);
      var last := if months[n] == m then [rows[n]] else [];
      RowsInSum(rows[..n], months[..n], m, s);
      assert StaffKeys(init + last) == StaffKeys(init) + StaffKeys(last);
      AmountSumAppend(init, StaffKeys(init), last, StaffKeys(last), Int(s));
      if months[n] == m {
        assert AmountSum(last, StaffKeys(last), Int(s)) == if rows[n].staffId == s then rows[n].amount else 0.0 by {
          assert last[..0] == [];
        }
      }
    }
  }

  function StaffScore(r: seq<Row>): Key -> real
  {
    k => AmountSum(r, StaffKeys(r), k)
  }

  /**
    The staff id `idxmax` picks within month `m`: one who sold in that month
    and took the most in it; of tied staff, the smallest id.
   */
  function BestStaff(rows: seq<Row>, months: seq<string>, m: string): int
    requires |months| == |rows| && m in months
  {
    var r := RowsIn(rows, months, m);
    var keys := StaffKeys(r);
    assert r != [] by {
      var i0 :| 0 <= i0 < |months| && months[i0] == m;
      assert rows[i0] in r;
    }
    var best := ArgMax(keys, StaffScore(r));
    assert best in keys;
    best.i
  }

  /**
    The staff id picked for month `m` sold in that month, no staff member
    took more in it, and of tied staff it is the smallest id.
   */
  lemma {:induction false} BestStaffSpec(rows: seq<Row>, months: seq<string>, m: string)
    requires |months| == |rows| && m in months
    ensures exists i :: 0 <= i < |rows| && months[i] == m && rows[i].staffId == BestStaff(rows, months, m)
    ensures forall i :: 0 <= i < |rows| && months[i] == m ==>
      StaffMonthValue(rows, months, m, rows[i].staffId) <= StaffMonthValue(rows, months, m, BestStaff(rows, months, m))
    ensures forall i :: 0 <= i < |rows| && months[i] == m ==>
      (StaffMonthValue(rows, months, m, rows[i].staffId) == StaffMonthValue(rows, months, m, BestStaff(rows, months, m)) ==>
        BestStaff(rows, months, m) <= rows[i].staffId)
  {
    var r := RowsIn(rows, months, m);
    var i0 :| 0 <= i0 < |months| && months[i0] == m;
    assert rows[i0] in r;
    var best := ArgMax(StaffKeys(r), StaffScore(r));
    BestStaffFacts(rows, months, m, r, best);
  }

  lemma BestStaffFacts(rows: seq<Row>, months: seq<string>, m: string, r: seq<Row>, best: Key)
    requires |months| == |rows| && r == RowsIn(rows, months, m)
    requires best in StaffKeys(r)
    requires forall j :: 0 <= j < |r| ==> StaffScore(r)(StaffKeys(r)[j]) <= StaffScore(r)(best)
    requires forall j :: 0 <= j < |r| && StaffScore(r)(StaffKeys(r)[j]) == StaffScore(r)(best) ==>
      !KeyLess(StaffKeys(r)[j], best)
    ensures best.Int?
    ensures exists i :: 0 <= i < |rows| && months[i] == m && rows[i].staffId == best.i
    ensures forall i :: 0 <= i < |rows| && months[i] == m ==>
      StaffMonthValue(rows, months, m, rows[i].staffId) <= StaffMonthValue(rows, months, m, best.i)
    ensures forall i :: 0 <= i < |rows| && months[i] == m ==>
      (StaffMonthValue(rows, months, m, rows[i].staffId) == StaffMonthValue(rows, months, m, best.i) ==> best.i <= rows[i].staffId)
  {
    var keys := StaffKeys(r);
    var j :| 0 <= j < |keys| && keys[j] == best;
    assert r[j] in r;
    RowsInSum(rows, months, m, best.i);
    forall i | 0 <= i < |rows| && months[i] == m
      ensures StaffMonthValue(rows, months, m, rows[i].staffId) <= StaffMonthValue(rows, months, m, best.i)
      ensures StaffMonthValue(rows, months, m, rows[i].staffId) == StaffMonthValue(rows, months, m, best.i) ==>
        best.i <= rows[i].staffId
    {
      assert rows[i] in r;
      var k :| 0 <= k < |r| && r[k] == rows[i];
      assert keys[k] == Int(rows[i].staffId);
      RowsInSum(rows, months, m, rows[i].staffId);
    }
  }

  /**
    `dict(zip(month, sales_staff_id))` of the per-month `idxmax` rows: one
    entry for every month present, mapping it to that month's best staff id.
   */
  function TopStaff(rows: seq<Row>, months: seq<string>): map<string, int>
    requires |months| == |rows|
  {
    map m | m in months :: BestStaff(rows, months, m)
  }

  // ---------------------------------------------------------------- the report

  /** The dictionary the metrics function returns, one field per value. */
  datatype Report = Report(
    volumeDay: string, volume: int,
    valueDay: string, value: real,
    product: int, productVolume: int,
    topStaff: map<string, int>,
    peakHour: int, peakHourMean: real)

  /**
    The five queries in source order, given the month column the script
    derives: an empty table makes `int(max)` of an empty sum fail; then a
    best-selling id that `int` rejects fails; then a month column that could
    not be built fails; otherwise the report.
   */
  function MetricsWith(rows: seq<Row>, months: Result<seq<string>>): Result<Report>
    requires months.Success? ==> |months.value| == |rows|
  {
    if rows == [] then Failure(EmptyTable)
    else
      var p := BestProduct(rows);
      match ParseInt(p)
      case None => Failure(NonNumericProductId(p))
      case Some(id) =>
        match months
        case Failure(e) => Failure(e)
        case Success(ms) => Success(ReportOf(rows, ms, id))
  }

  /** The figures of a report whose every step went through, `product` being the best id as an integer. */
  function ReportOf(rows: seq<Row>, ms: seq<string>, product: int): Report
    requires |ms| == |rows| && rows != []
  {
    var p := BestProduct(rows);
    var vd := PeakVolumeDay(rows);
    var sd := PeakValueDay(rows);
    var h := PeakHour(rows);
    Report(vd, DayVolume(rows, vd), sd, DayValue(rows, sd), product, ProductVolume(rows, p),
           TopStaff(rows, ms), h, HourMean(rows, h))
  }

  /** Whether evaluation gets past the best-product query to the month column. */
  predicate ReachesMonthStep(rows: seq<Row>)
  {
    rows != [] && ParseInt(BestProduct(rows)).Some?
  }

  /**
    How the report fails: on an empty table with `EmptyTable` (and, unless the
    month column itself failed that way, only then);
    with `NonNumericProductId` when the best product's id is not an integer;
    otherwise with the month column's own error.
   */
  lemma {:induction false} MetricsFailures(rows: seq<Row>, months: Result<seq<string>>)
    requires months.Success? ==> |months.value| == |rows|
    ensures rows == [] ==> MetricsWith(rows, months) == Failure(EmptyTable)
    ensures months != Failure(EmptyTable) ==> (MetricsWith(rows, months) == Failure(EmptyTable) <==> rows == [])
    ensures rows != [] && ParseInt(BestProduct(rows)).None? ==>
      MetricsWith(rows, months) == Failure(NonNumericProductId(BestProduct(rows)))
    ensures ReachesMonthStep(rows) && months.Failure? ==> MetricsWith(rows, months) == Failure(months.error)
    ensures MetricsWith(rows, months).Success? <==> ReachesMonthStep(rows) && months.Success?
  {
    if ReachesMonthStep(rows) && months.Success? {
      assert MetricsWith(rows, months).Success?;
    }
  }

  /**
    The two reported days occur in the table, carry the figures reported with
    them, and no day of the table sold more units or took more money.
   */
  lemma {:induction false} MetricsDays(rows: seq<Row>, ms: seq<string>)
    requires |ms| == |rows|
    ensures MetricsWith(rows, Success(ms)).Success? ==>
      var rep := MetricsWith(rows, Success(ms)).value;
      && (exists i :: 0 <= i < |rows| && rows[i].date == rep.volumeDay)
      && rep.volume == DayVolume(rows, rep.volumeDay)
      && (forall i :: 0 <= i < |rows| ==> DayVolume(rows, rows[i].date) <= rep.volume)
      && (exists i :: 0 <= i < |rows| && rows[i].date == rep.valueDay)
      && rep.value == DayValue(rows, rep.valueDay)
      && (forall i :: 0 <= i < |rows| ==> DayValue(rows, rows[i].date) <= rep.value)
  {
    if MetricsWith(rows, Success(ms)).Success? {
      PeakVolumeDaySpec(rows);
      PeakValueDaySpec(rows);
    }
  }

  /**
    The reported product id is the best-selling product's id read as an
    integer, with that product's units, and no product sold more units.
   */
  lemma {:induction false} MetricsProduct(rows: seq<Row>, ms: seq<string>)
    requires |ms| == |rows|
    ensures MetricsWith(rows, Success(ms)).Success? ==>
      var rep := MetricsWith(rows, Success(ms)).value;
      && (exists i :: 0 <= i < |rows| && rows[i].productId == BestProduct(rows))
      && ParseInt(BestProduct(rows)) == Some(rep.product)
      && rep.productVolume == ProductVolume(rows, BestProduct(rows))
      && (forall i :: 0 <= i < |rows| ==> ProductVolume(rows, rows[i].productId) <= rep.productVolume)
  {
    if rows != [] {
      BestProductSpec(rows);
    }
  }

  /**
    The top-staff map has one entry per month of the month column, holding a
    staff id of that month with the largest value in it.
   */
  lemma {:induction false} MetricsStaff(rows: seq<Row>, ms: seq<string>)
    requires |ms| == |rows|
    ensures MetricsWith(rows, Success(ms)).Success? ==>
      var top := MetricsWith(rows, Success(ms)).value.topStaff;
      && (forall m :: m in top <==> m in ms)
      && (forall m :: m in top ==>
            && (exists i :: 0 <= i < |rows| && ms[i] == m && rows[i].staffId == top[m])
            && (forall i :: 0 <= i < |rows| && ms[i] == m ==>
                  StaffMonthValue(rows, ms, m, rows[i].staffId) <= StaffMonthValue(rows, ms, m, top[m])))
  {
    if MetricsWith(rows, Success(ms)).Success? {
      TopStaffSpec(rows, ms);
    }
  }

  /**
    The map of best staff per month: one entry per month present, each
    holding a staff id of that month whose value in it no other staff
    member's exceeds.
   */
  lemma {:induction false} TopStaffSpec(rows: seq<Row>, ms: seq<string>)
    requires |ms| == |rows|
    ensures forall m :: m in TopStaff(rows, ms) <==> m in ms
    ensures forall m :: m in TopStaff(rows, ms) ==>
      && (exists i :: 0 <= i < |rows| && ms[i] == m && rows[i].staffId == TopStaff(rows, ms)[m])
      && (forall i :: 0 <= i < |rows| && ms[i] == m ==>
            StaffMonthValue(rows, ms, m, rows[i].staffId) <= StaffMonthValue(rows, ms, m, TopStaff(rows, ms)[m]))
  {
    var top := TopStaff(rows, ms);
    forall m | m in top
      ensures exists i :: 0 <= i < |rows| && ms[i] == m && rows[i].staffId == top[m]
      ensures forall i :: 0 <= i < |rows| && ms[i] == m ==>
        StaffMonthValue(rows, ms, m, rows[i].staffId) <= StaffMonthValue(rows, ms, m, top[m])
    {
      BestStaffSpec(rows, ms, m);
    }
  }

  /**
    The peak hour is an hour of the day present in the table, reported with
    its mean quantity, and no hour of the table has a larger mean.
   */
  lemma {:induction false} MetricsHour(rows: seq<Row>, ms: seq<string>)
    requires |ms| == |rows|
    ensures MetricsWith(rows, Success(ms)).Success? ==>
      var rep := MetricsWith(rows, Success(ms)).value;
      && 0 <= rep.peakHour <= 23
      && (exists i :: 0 <= i < |rows| && rows[i].time.hour == rep.peakHour)
      && rep.peakHourMean == HourMean(rows, rep.peakHour)
      && (forall i :: 0 <= i < |rows| ==> HourMean(rows, rows[i].time.hour) <= rep.peakHourMean)
  {
    if rows != [] {
      PeakHourSpec(rows);
    }
  }

  /** `n * a` written as `n` additions of `a`, the way a sum over `n` equal amounts builds it. */
  function Times(n: nat, a: real): real
  {
    if n == 0 then 0.0 else Times(n - 1, a) + a
  }

  lemma {:induction false} TimesIsProduct(n: nat, a: real)
    ensures Times(n, a) == n as real * a
  {
    if n > 0 {
      TimesIsProduct(n - 1, a);
      assert (n - 1) as real * a + a == n as real * a;
    }
  }

  /**
    Amounts are copied onto every row of a transaction, so the day's value
    counts a transaction's amount once per product token.
   */
  lemma {:induction false} ReplicatedAmount(date: string, t: Transaction)
    ensures ProductRows(date, t, t.products).Success? ==>
      var rows := ProductRows(date, t, t.products).value;
      |rows| == |t.products| && DayValue(rows, date) == Times(|t.products|, t.amount)
  {
    ProductRowsShare(date, t, t.products);
    var r := ProductRows(date, t, t.products);
    if r.Success? {
      UniformAmount(r.value, date, t.amount);
    }
  }

  /** Rows that all carry day `d` and amount `a` add `a` once per row to that day's value. */
  lemma {:induction false} UniformAmount(rows: seq<Row>, d: string, a: real)
    requires forall i :: 0 <= i < |rows| ==> rows[i].date == d && rows[i].amount == a
    ensures DayValue(rows, d) == Times(|rows|, a)
  {
    if rows != [] {
      var n := |rows| - 1;
      assert DateKeys(rows)[..n] == DateKeys(rows[..n]);
      UniformAmount(rows[..n], d, a);
    }
  }

  /** Adding rows of other days leaves a day's value unchanged, and rows of the day add up. */
  lemma {:induction false} DayValueAppend(a: seq<Row>, b: seq<Row>, d: string)
    ensures DayValue(a + b, d) == DayValue(a, d) + DayValue(b, d)
  {
    assert DateKeys(a + b) == DateKeys(a) + DateKeys(b);
    AmountSumAppend(a, DateKeys(a), b, DateKeys(b), Str(d));
  }

  /**
    The table the metrics functions receive and extend in place: its rows,
    and the `month` and `hour` columns once they have been added.
   */
  class Table {
    const rows: seq<Row>
    var month: Option<seq<string>>
    var hour: Option<seq<int>>

    constructor(rows: seq<Row>)
      ensures this.rows == rows && month == None && hour == None
    {
      this.rows := rows;
      month := None;
      hour := None;
    }
  }
}
