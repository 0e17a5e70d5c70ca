# Shop transaction analytics, in Dafny

This project models a small sales-analytics pipeline. It exists as two nearly identical Python scripts, `analytics.py` and `analystics.py`. The pipeline has four stages:

1. **Line parser** (`parse_transaction`, called `parsing` in the second script). A transaction line is stripped and split on `,` into exactly four fields: staff id, ISO timestamp, a bracketed `|`-separated list of `id:quantity` product tokens, and the sale amount. A line that does not have four fields, or whose staff id, timestamp or amount does not convert, is rejected (`None`). Product tokens are not inspected at this stage.
2. **File expander** (`process_transaction_file`). Every row of a file is labelled with the file name up to its first `.`. Rejected lines are skipped. An accepted line yields one row per product token, in order, and every one of those rows carries the whole transaction's staff id, time and amount. A token that is not exactly `id:quantity`, or whose quantity is not an integer, raises out of the file.
3. **Dataset builder** (`main`). It keeps the `.txt` names of the directory, sorts them, expands each file, and concatenates the rows in that order. With no `.txt` file at all, the concatenation fails.
4. **Metrics** (`calculate_metrics` in the first script, `metrics` in the second). Five group-by/argmax queries run over the rows:
   - the day with the highest summed quantity;
   - the day with the highest summed amount;
   - the product id with the highest summed quantity, converted with `int`;
   - per month, the staff id with the highest summed amount;
   - the hour of the day with the highest mean quantity.

   Both scripts add `month` and `hour` columns to the table while they run. The two scripts differ only in the month:
   - the first reads the month off the timestamp, as two digits (`strftime("%m")`);
   - the second takes the second `-`-separated segment of the date label. That fails for a label without `-`.

Modules:

- `Outcomes`: `Option`, `Result` and the error kinds. An exception of the scripts is a `Failure`.
- `Text`: the Python string operations the scripts use. These are `strip`, which removes the characters `str.isspace` accepts, `split`, `join`, `endswith`, and string `<`, which is code-point order.
- `Numbers`: the conversions `int`, `float`, `datetime.fromisoformat` and `%02d`, in a simplified grammar (see "Left out"). The printers they invert are here too, with round-trip lemmas.
- `Pipeline`: the parser, the expander and the builder, which are identical in both scripts. The table below cites the first script. The second script's copies are `analystics.py:6-19` (parser), `analystics.py:21-36` (expander) and `analystics.py:38-50` (builder).
  - The two loops of the expander are methods (`TransactionRows`, `ProcessTransactionFile`). So is the loop of the builder (`BuildDataset`).
  - Each method is proved equal to a recursive specification function. That function is an instance of one generic fold, `Collect`: it applies a step to each element and concatenates the results, and the first failure wins.
- `Queries`: the five queries and the report both scripts return. The table cites `analytics.py:66-100`. The second script's copies are at `analystics.py:56-90`, ten lines earlier.
  - pandas `groupby(...).sum()/.mean()` followed by `idxmax()` becomes an explicit sum or mean over the rows, plus `ArgMax` over the key column.
  - `groupby` sorts its keys and `idxmax` returns the first maximum, so `ArgMax` resolves ties to the smallest key.
  - The table is a class. Its rows are fixed, and its optional `month` and `hour` columns are assigned in place.
- `Analytics`: the first script's `calculate_metrics`, with the month taken from the timestamp.
- `Analystics`: the second script's `metrics`, with the month taken from the date label.

Where the scripts' intended behaviour and their code differ, the model follows the code:

- **No files vs. no rows.** For emptiness, the builder fails only when there is no `.txt` file at all, because concatenating zero tables is an error. A malformed product token fails it too, whatever the number of files. `.txt` files that yield no rows give an empty table, and the build succeeds. The failure then comes from the metrics: the first query converts the maximum of an empty series with `int`, which fails. This is `EmptyTable`.
- **Ties go to the smallest key, not the first one seen.** `groupby` sorts its keys before `idxmax` looks at them:
  - product ids are compared as strings, by code point;
  - hours and staff ids are compared as integers;
  - date labels are compared as strings. This agrees with the sorted file order when no label is a proper prefix of another, as with fixed-width names like `YYYY-MM-DD.txt`. It can disagree otherwise: `2024-01-01-x.txt` sorts before `2024-01-01.txt`, because `-` comes before `.`, but its label sorts after.
- **Failure order.** The report fails at the first query that raises, in the order of the source:
  1. an empty table;
  2. a non-numeric best product id;
  3. only in the second script, a date label without `-`.

## Model

| member | source | states |
|---|---|---|
| Pipeline.ParseTransaction | analytics.py:6-22 | The line is accepted exactly when it has four comma fields whose first converts with `int`, second with `fromisoformat` and fourth with `float`. Every other line gives None, never an error. On acceptance the transaction holds those three values and at least one product token. No token contains `|`, and joined with `|` they give back field 2 without its first and last characters. |
| Pipeline.DateLabel | analytics.py:28 | The label contains no `.`. It is a prefix of the file name, followed in the name by `.` or by nothing. |
| Pipeline.ProductRow | analytics.py:37-40 | A token gives a row exactly when it splits on `:` into two parts and the second converts with `int`; otherwise it gives a token error. The row carries the transaction's date, staff id, time and amount, with the token's id and quantity, and the token is `id:quantity`. |
| Pipeline.TokenRoundTrip | analytics.py:37-38 | For an id without `:`, the token `id:str(q)` is read back as that id and quantity `q`. |
| Pipeline.ProductRowsSpec | analytics.py:36-40 | The rows of a transaction exist exactly when every token is well formed. There are then exactly as many rows as tokens, the i-th being the i-th token's row, in order; otherwise the error is a token error. |
| Pipeline.ProductRowsShare | analytics.py:35-40 | The K rows of a K-token transaction all share the date label, staff id, time and amount. |
| Pipeline.TransactionRows | analytics.py:36-40 | The inner loop appends one row per token in order, and stops at the first malformed token with that token's error; its result is `ProductRows`. |
| Pipeline.ExpandLine | analytics.py:32-40 | Expands one line of a file into its rows. Contract: `ExpandLineSpec`, `ExpandLineLabels`. |
| Pipeline.ExpandLineSpec | analytics.py:31-40 | A rejected line expands to no rows. An accepted line expands to one row per token, in token order, or fails exactly when some token is malformed, and then only with a token error. |
| Pipeline.ExpandLineLabels | analytics.py:28-40 | Every row a line yields is labelled with the file's date label, and any failure is a token error. |
| Pipeline.ExpandLines | analytics.py:31-40 | Expands a file's lines in order and stops at the first token error. Contract: `ExpandLinesSpec`, `RejectedLineIsSkipped`. |
| Pipeline.ExpandLinesSpec | analytics.py:31-40 | A file's lines expand successfully exactly when every line does. Every resulting row carries the date label, and a failure is a token error. |
| Pipeline.RejectedLineIsSkipped | analytics.py:32-34 | Inserting a rejected line anywhere into a file changes nothing in the file's result. |
| Pipeline.ProcessFile | analytics.py:24-42 | Labels a file with its date label and expands its lines. Contract: `FileRowsAreLabelled`; its loop form is `ProcessTransactionFile`. |
| Pipeline.FileRowsAreLabelled | analytics.py:28-40 | Every row of a processed file is dated with the file name up to its first `.`, a label with no `.` that is a prefix of the name. |
| Pipeline.ProcessTransactionFile | analytics.py:24-42 | The outer loop over the lines skips rejected ones, appends each accepted line's rows, and returns the first token error. Its result is `ProcessFile` of the file. |
| Pipeline.TxtFiles | analytics.py:48 | The filtered listing holds every `.txt` entry as often as the listing does, and nothing else. |
| Pipeline.InsertByName | analytics.py:48 | Inserting into a sorted list keeps it sorted by name, and adds exactly the new entry. |
| Pipeline.SortByName | analytics.py:48 | The result is sorted by name, and is a permutation of its input. |
| Pipeline.FileList | analytics.py:48 | The file list is sorted by name and holds exactly the `.txt` entries of the directory. |
| Pipeline.ExpandFilesSpec | analytics.py:52-56 | Expanding the file list succeeds exactly when every file does. There is then one frame per file, each that file's rows, in file order; otherwise the error is a token error. |
| Pipeline.Concat | analytics.py:58 | A row is in the concatenation exactly when it is in one of the frames. |
| Pipeline.ConcatAppend | analytics.py:58 | Concatenation keeps frame order: concatenating two lists of frames is concatenating each and appending the results. |
| Pipeline.Dataset | analytics.py:48-58 | Sorts the `.txt` entries, expands each and concatenates the rows. Contract: `DatasetFailures`, `DatasetRows`, `DatasetLabels`; its loop form is `BuildDataset`. |
| Pipeline.DatasetFailures | analytics.py:48-58 | The build fails with `NoTransactionFiles` exactly when the directory holds no `.txt` name. Any other failure is a token error. |
| Pipeline.DatasetRows | analytics.py:48-58 | A successful build is the concatenation, in sorted file order, of one frame per `.txt` file, each that file's rows. |
| Pipeline.DatasetLabels | analytics.py:48-58 | Every row of the dataset is dated with the label of some `.txt` file of the directory. |
| Pipeline.BuildDataset | analytics.py:44-59 | The loop over the sorted `.txt` files appends each file's frame, stops at the first failing file, and fails on an empty list. Its result is `Dataset` of the directory. |
| Pipeline.CollectAppend | analytics.py:52-56 | Folding a list that is a concatenation is chaining the two folds: the first failure, or the two results concatenated. |
| Pipeline.CollectFirstFailure | analytics.py:52-56 | When every element before position i succeeds and element i fails, the whole fold raises element i's error. |
| Text.Strip | analytics.py:11 | `str.strip`. Contract: its own slice bound, then `StripSpec`, `StripIdempotent`. |
| Text.StripSpec | analytics.py:11 | `strip` removes exactly the leading and trailing white space: what it drops is all white space, and what it keeps neither starts nor ends with white space. |
| Text.StripIdempotent | analytics.py:11 | Stripping twice is stripping once. |
| Text.Split | analytics.py:17 | `str.split` on one character, also used at lines 11, 28 and 37. It returns at least one piece. Contract: `SplitSpec`, `SplitJoin`, `SplitSingle`. |
| Text.SplitSpec | analytics.py:11 | No piece of `split` contains the separator, and joining the pieces with it gives the string back. |
| Text.SplitJoin | analytics.py:17 | Splitting the join of separator-free pieces gives the pieces back. |
| Text.SplitSingle | analystics.py:73 | `split` yields a single piece exactly when the separator does not occur, so `[1]` is out of range exactly then. |
| Text.StrLessTotal | analytics.py:48 | String order, used by `sorted`, relates every two different strings. |
| Text.StrLessTransitive | analytics.py:48 | String order is transitive. |
| Numbers.ParseInt | analytics.py:14 | `int` on a string, also used at line 38 for the quantity. Contract: `ParseShowInt`. |
| Numbers.ParseFloat | analytics.py:18 | `float` on a string. Contract: `ParseShowCents`, `SignedDecimal`. |
| Numbers.ParseShowInt | analytics.py:14 | `int` reads back every integer from its decimal form. |
| Numbers.ParseShowCents | analytics.py:18 | `float` reads back every non-negative amount from its two-decimal form. |
| Numbers.SignedDecimal | analytics.py:18 | A leading `-` on a decimal that `float` reads gives exactly the negated value, so negative amounts read back too. |
| Numbers.ParseIsoDateTime | analytics.py:15 | Every timestamp accepted has a year 1..9999, a month 1..12, a day valid for the month and year, an hour 0..23, and minutes and seconds 0..59. |
| Numbers.ParseFormatIso | analytics.py:15 | `fromisoformat` reads back every valid timestamp from its ISO form. |
| Numbers.Pad2 | analytics.py:83 | The month key is two decimal digits whose value is the month. |
| Queries.ArgMax | analytics.py:70 | The key chosen is in the column, its score is at least every key's score, and no key with an equal score sorts before it. |
| Queries.AmountSum | analytics.py:73 | The summed amount of the rows whose key is `k`. Contract: `AmountSumAppend`, `RowsInSum`. |
| Queries.AmountSumAppend | analytics.py:73 | A per-key amount sum over two tables is the sum of the two sums. |
| Queries.QuantitySum | analytics.py:68 | The summed quantity of the rows whose key is `k`. Contract: `QuantitySumAppend`. |
| Queries.QuantitySumAppend | analytics.py:68 | A per-key quantity sum over two tables is the sum of the two sums. |
| Queries.PeakVolumeDay | analytics.py:68-70 | `idxmax` of the per-day quantity sums. Contract: `PeakVolumeDaySpec`. |
| Queries.PeakVolumeDaySpec | analytics.py:68-70 | The peak-volume day is a date of the table. Its summed quantity is at least every date's. No date with the same sum sorts before it. |
| Queries.PeakValueDay | analytics.py:73-75 | `idxmax` of the per-day amount sums. Contract: `PeakValueDaySpec`. |
| Queries.PeakValueDaySpec | analytics.py:73-75 | The peak-value day is a date of the table. Its summed amount is at least every date's. No date with the same sum sorts before it. |
| Queries.BestProduct | analytics.py:78-79 | `idxmax` of the per-product quantity sums, before `int`. Contract: `BestProductSpec`. |
| Queries.BestProductSpec | analytics.py:78-79 | The best product is a product id of the table. Its summed quantity is at least every product's. No product with the same sum sorts before it. |
| Queries.HourMean | analytics.py:90 | The mean quantity of the rows in hour `h`. Contract: `PeakHourSpec`, `MetricsHour`. |
| Queries.PeakHour | analytics.py:89-92 | `idxmax` of the per-hour mean quantities. Contract: `PeakHourSpec`. |
| Queries.PeakHourSpec | analytics.py:89-92 | The peak hour is in 0..23 and occurs in the table. Its mean quantity is at least every present hour's. Ties go to the earlier hour. |
| Queries.RowsIn | analytics.py:84 | The rows of a month are exactly the rows whose month key is that month. |
| Queries.RowsInSum | analytics.py:84 | Summing a staff's amounts over a month's rows is summing them over the whole table restricted to that month. |
| Queries.BestStaff | analytics.py:84-85 | The staff id with the highest summed amount in one month. Contract: `BestStaffSpec`. |
| Queries.BestStaffSpec | analytics.py:84-85 | The month's best staff sold in that month. Their month total is at least every staff's month total, and ties go to the smallest id. |
| Queries.TopStaff | analytics.py:84-86 | The month-to-best-staff dictionary. Contract: `TopStaffSpec`. |
| Queries.TopStaffSpec | analytics.py:84-86 | The map has one entry per month key present. Each entry is a staff id that sold in that month, with a month total at least every staff's. |
| Queries.MetricsWith | analytics.py:66-100 | The five queries in source order, given the month column. Contract: `MetricsFailures`, `MetricsDays`, `MetricsProduct`, `MetricsStaff`, `MetricsHour`. |
| Queries.ReportOf | analytics.py:94-100 | The returned dictionary, as a record of the nine figures. Contract: `MetricsDays`, `MetricsProduct`, `MetricsStaff`, `MetricsHour`. |
| Queries.MetricsFailures | analytics.py:66-100 | An empty table fails with `EmptyTable`, and so does no other table unless the month column itself fails so. A non-numeric best product fails with its id. A failing month column is reported past those two checks. The report exists exactly when all three pass. |
| Queries.MetricsDays | analytics.py:68-75 | The report's two days are dates of the table, and its volume and value are their sums. These are the maxima over all dates. |
| Queries.MetricsProduct | analytics.py:78-80 | The reported product is the best product id converted with `int`, and its volume is the maximum summed quantity over all products. |
| Queries.MetricsStaff | analytics.py:83-86 | The report's staff map has exactly the month keys as keys. Each value sold in its month and took the most in it. |
| Queries.MetricsHour | analytics.py:89-92 | The reported hour is in 0..23 and occurs in the table. Its reported mean is its mean quantity, and that is the maximum over the hours present. |
| Queries.ReplicatedAmount | analytics.py:36-40 | When a transaction's K tokens all go through, it yields K rows, and they add its amount K times over to its day's value. |
| Queries.UniformAmount | analytics.py:73 | Rows of one date that all carry the same amount add that amount once per row to the date's value. |
| Queries.TimesIsProduct | analytics.py:73 | Adding an amount once per row is multiplying it by the number of rows. |
| Queries.DayValueAppend | analytics.py:73 | A day's value over two tables is the sum of its values over each. |
| Queries.Table.constructor | analytics.py:58 | The table `concat` returns: the given rows, with no `month` or `hour` column yet. |
| Analytics.TimestampMonths | analytics.py:83 | The month column has one entry per row: two digits whose value is the row's timestamp month. |
| Analytics.TimestampMonthsGroupByMonth | analytics.py:83-84 | Two rows get the same month key exactly when their timestamps have the same month. |
| Analytics.TimestampMonthKeys | analytics.py:83-86 | The month keys are exactly the two-digit forms of the months that occur in the timestamps. |
| Analytics.MetricsOf | analytics.py:66-100 | `calculate_metrics` with the month read off the timestamp. Contract: `MetricsOfFailures`, `TopStaffByTimestamp`; its stateful form is `CalculateMetrics`. |
| Analytics.MetricsOfFailures | analytics.py:66-100 | The first script's report exists exactly when the table is non-empty and its best product id is numeric. An empty table, and only that, gives `EmptyTable`, and a non-numeric best product gives that id's error. |
| Analytics.TopStaffByTimestamp | analytics.py:83-86 | On success the staff map has one entry per timestamp month present, keyed by its two-digit form. Each entry took the most in its month. |
| Analytics.CalculateMetrics | analytics.py:66-100 | The method returns the first script's report. It fails on an empty table or a non-numeric best product before touching the table. Otherwise it sets the `month` column to the timestamp months and the `hour` column to the hours. |
| Analystics.LabelMonth | analystics.py:73 | The month segment is missing exactly when the date label has no `-`. |
| Analystics.LabelMonthSegment | analystics.py:73 | The month segment contains no `-`. It is the text between the label's first `-` and the next `-` or the end. |
| Analystics.LabelMonths | analystics.py:73 | A month column built from the labels has one entry per row. |
| Analystics.LabelMonthsSpec | analystics.py:73 | The month column exists exactly when every label has a `-`, and then holds each label's month segment. Otherwise it fails naming a label without `-`. |
| Analystics.LabelMonthsFirstFailure | analystics.py:73 | The error is the one of the first row whose label has no `-`. |
| Analystics.MetricsOf | analystics.py:56-90 | `metrics` with the month taken from the date label. Contract: `MetricsOfFailures`, `TopStaffByLabel`; its stateful form is `Metrics`. |
| Analystics.MetricsOfFailures | analystics.py:56-90 | In the second script an empty table, and only that, gives `EmptyTable`, and a non-numeric best product comes next. Past both checks, the report exists exactly when every label has a `-`; otherwise it fails with a missing month segment. |
| Analystics.TopStaffByLabel | analystics.py:73-76 | On success the staff map has one entry per month segment of the labels, and each entry took the most in its month. |
| Analystics.LabelMonthKeys | analystics.py:73-76 | The month keys are exactly the month segments of the labels. |
| Analystics.Metrics | analystics.py:56-90 | The method returns the second script's report. It fails on an empty table, a non-numeric best product or a label without `-`, in that order, before touching the table. Otherwise it sets the `month` column to the label months and the `hour` column to the hours. |

## Left out

- File-system access is not modelled: `open`, `os.listdir` and `os.path.join`. A directory is a list of entries, each a name and the file's lines, in listing order.
- The directory global is not modelled: the second script reads an undefined `transaction_dir`, and the first a `directory` global assigned just before the call. The entries are a parameter instead.
- Printing is not modelled. This covers the "skipping malformed line" message, the progress lines, `round` and the `:,.2f` formats of the report.
- Module-level script execution is not modelled.
- File reading does not model universal-newline translation. A line is given as the text the loop sees.
- The `IndexError` case of the parser is not modelled, because it cannot occur: a four-field line always has a field 2, and slicing never raises.
- `int`, `float` and `fromisoformat` are modelled in a simplified grammar, not Python's full literal syntax:
  - `int`: an optional sign and decimal digits, after stripping white space;
  - `float`: an optional sign and a decimal with an optional fraction, without underscores, exponents, `inf` or `nan`;
  - `fromisoformat`: `YYYY-MM-DD`, optionally followed by a separator and `HH`, `HH:MM` or `HH:MM:SS`, without fractions of a second, time zones or the compact forms.
- Numbers.ParseInt: integers are unbounded. It does not model the limit of 4300 digits that Python 3.12 puts on `int()` of a string. Past it, a staff id would make the parser return None, and a quantity would raise out of the file.
- Queries.QuantitySum: integers are unbounded. It does not model the wrap-around of pandas' int64 sums past 2^63 − 1. The per-day and per-product volumes of the report are such sums.
- Amounts are unbounded reals, and means are exact real quotients. Floating-point rounding is not modelled.
- `int()` of the maximum volume is not modelled as a conversion: the sums of integers are integers already.
- The pandas DataFrame is not modelled as such:
  - `groupby`, `sum`, `mean` and `idxmax` are recursive functions over the row sequence, not loops;
  - `reset_index`, `loc` and `zip` in the top-staff query are folded into one map comprehension;
  - dtype inference is left out. Product ids stay strings, and a table mixing number-like and other ids is ordered by code point.
- Numbers.ParseShowCents: states the round trip for non-negative amounts only. For a negative amount, the round trip follows from this lemma together with `SignedDecimal`, but no single lemma states it.
- Queries.Table: the rows are a constant of the table. Only the `month` and `hour` columns the scripts add are mutable state. Aliasing of the table is not modelled.
- Queries.MetricsDays: the tie-break is not restated here. It is stated by `PeakVolumeDaySpec` and `PeakValueDaySpec`, which this lemma uses.
