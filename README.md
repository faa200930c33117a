# Partnership revenue calculator, modelled in Dafny

`prop.py` is a small calculator for a prop-trading partnership. For each
applicant cohort size it projects two ways of earning from the traders who
pass their evaluation:

- the **points path** (`simulate_points`). A challenge fee is paid for every
  applicant. The funded traders bring first-month net revenue. A share of
  them withdraw again in month two and bring month-two revenue. The path
  reports both monthly nets, their total and two ROI figures.
- the **direct path** (`simulate_direct`). The funded traders bring one
  month of direct net revenue, with no fee.

A third table sets the two first-month nets side by side and adds them. The
cohort sizes come from a comma-separated text field.

The model has three modules:

- `Rounding` (`rounding.dfy`) is the decimal rounding applied to every
  displayed column.
- `Cohorts` (`cohorts.dfy`) parses the cohort text. It splits at commas,
  strips whitespace and converts each piece with `int`. A `Result` carries
  the failure case.
- `Simulator` (`simulator.dfy`) holds the rest:
  - the exact per-row figures;
  - the rounded rows;
  - the two table-building loops, as methods proved against table
    functions;
  - the positional join;
  - the script's flow from the text field to the three tables.

Amounts are exact `real`s and trader counts are `int`s. Percent sliders
become fractions by dividing by 100, as the script does.

## Model

| member | source | states |
|---|---|---|
| Rounding.NearestInt | prop.py:21-28 | The chosen integer is within 0.5 of the value, and a tie goes to the even neighbour. |
| Rounding.RoundTo | prop.py:21-28 | `round(x, n)`: the result is within half a unit in the n-th decimal of x, and it has at most n decimals. |
| Rounding.RoundToExact | prop.py:21-28 | A value that already has at most n decimals is returned unchanged. |
| Rounding.WholeAmount | prop.py:21-28 | A whole amount is unchanged at any number of places. |
| Rounding.RoundToIdempotent | prop.py:21-28 | Rounding an already rounded value changes nothing. |
| Rounding.RoundToMonotone | prop.py:21-28 | Rounding never swaps the order of two amounts. |
| Rounding.SumOfRoundedBound | prop.py:114 | The sum of two amounts rounded to n places is within one unit in the n-th decimal of their exact sum. |
| Cohorts.Split | prop.py:50 | `split(",")` gives one more piece than the text has commas. |
| Cohorts.SplitPiecesCommaFree | prop.py:50 | No piece contains a comma. |
| Cohorts.JoinSplit | prop.py:50 | Gluing the pieces back with commas gives the original text, so nothing is lost or reordered. |
| Cohorts.SplitJoin | prop.py:50 | Splitting comma-joined, comma-free pieces gives those pieces back. |
| Cohorts.Strip | prop.py:50 | `strip()`: the result neither starts nor ends with whitespace. |
| Cohorts.StripRemovesSpace | prop.py:50 | The result is a contiguous slice of the input, and only whitespace is cut off before and after it. |
| Cohorts.StripPadded | prop.py:50 | Whitespace around a piece is ignored: padding a stripped piece strips back to that piece. |
| Cohorts.ParseInt | prop.py:50 | `int(s)`: an error names the rejected literal. |
| Cohorts.ParseIntAccepts | prop.py:50 | `int` accepts exactly an optional sign followed by one or more digits. A leading `-` gives a value of at most 0; otherwise the value is at least 0. |
| Cohorts.ParseIntSignsAndZeros | prop.py:50 | For a run of digits d, `int` gives d's value, an explicit `+` leaves it unchanged, `-` negates it, and a leading zero changes nothing. |
| Cohorts.LeadingZero | prop.py:50 | A leading zero keeps a run of digits all digits and adds nothing to its value. |
| Cohorts.DigitsValueOfDigits | prop.py:50 | Writing a natural number in decimal and reading the digits back gives the number. |
| Cohorts.ParseIntText | prop.py:50 | `int` reads back any integer written out in decimal. |
| Cohorts.Convert | prop.py:50 | `int(x.strip())` for one piece: a failure names the stripped piece as the rejected literal. |
| Cohorts.ConvertAll | prop.py:50 | The comprehension's conversions: one result per piece, and result i is piece i's conversion. |
| Cohorts.Collect | prop.py:50 | The list comprehension succeeds if and only if every conversion succeeds. It then holds every value, in order. |
| Cohorts.CollectFirstError | prop.py:50 | When a conversion fails, the error reported is that of the first failing conversion. |
| Cohorts.ParseCohorts | prop.py:50 | The cohort list has one entry per comma-separated piece (commas + 1). It succeeds if and only if every stripped piece converts, and entry i is piece i's value, in textual order. |
| Cohorts.ParseCohortsError | prop.py:50 | An entry that is not an integer fails the whole list, which reports the first such entry. |
| Cohorts.BlankPieceRejected | prop.py:50 | An empty or blank entry is an error naming the empty literal, not a skipped entry. |
| Cohorts.BlankSecondPiece | prop.py:50 | A list whose first entry converts and whose second entry is blank fails on the blank entry. |
| Cohorts.DoubledCommaRejected | prop.py:50 | The text `100,,500` is rejected. |
| Cohorts.ConvertIntText | prop.py:50 | A cohort size written in decimal has no comma and converts back to itself. |
| Cohorts.ParseFormat | prop.py:50 | Parsing a comma-separated list of written-out cohort sizes gives the list back. |
| Cohorts.DefaultCohorts | prop.py:49-50 | The field's default text parses to [100, 500, 1000, 5000, 10000, 20000, 50000]. |
| Simulator.Roi | prop.py:16-17 | The guarded ROI: for a positive expense, the ROI times the expense is 100 times the net. Otherwise the ROI is exactly 0 and no division happens. |
| Simulator.PointsRowOf | prop.py:10-17 | The exact points row of one cohort. It has no contract of its own; its meaning is stated by PointsRelations, PointsRoi, FundedBounds and PointsPerTrader. |
| Simulator.PointsRelations | prop.py:10-15 | Before rounding: funded is trader × pass rate and expense is trader × fee; net 1 is funded × net per funded trader; withdrawers is funded × withdrawal rate; net 2 is withdrawers × month-2 net; the total is net 1 + net 2. |
| Simulator.PointsRoi | prop.py:11-17 | Both ROIs are the net as a percentage of a positive expense. When the expense is at most 0, both are exactly 0 and no division happens. |
| Simulator.FundedBounds | prop.py:6-13 | With trader ≥ 0 and both percentages in [0, 100], 0 ≤ withdrawers ≤ funded ≤ trader before rounding. |
| Simulator.ZeroFeeZeroRoi | prop.py:16-28 | With no challenge fee, both displayed ROI columns are exactly 0. |
| Simulator.PointsPerTrader | prop.py:10-17 | Every count and amount of a points row is the cohort size times a fixed per-trader figure. For a non-empty cohort, both ROIs do not depend on the cohort size. |
| Simulator.RoiScale | prop.py:16-17 | Scaling net and expense by the same positive factor leaves the ROI unchanged. |
| Simulator.RoundPoints | prop.py:19-29 | Each displayed column is within half a unit of its exact value: funded, withdrawers and ROIs at 1 decimal, money at 2. Each lies on its 1- or 2-decimal grid, and the trader count is kept. |
| Simulator.PointsTable | prop.py:8-30 | The points table has one row per cohort, in input order, and row i's Traders field is cohort i. |
| Simulator.SimulatePoints | prop.py:5-30 | The append loop builds exactly the points table. |
| Simulator.DirectRowOf | prop.py:36-38 | Before rounding, funded is trader × pass rate, and the direct net is the funded count times the direct net per funded trader. |
| Simulator.DirectScale | prop.py:37-38 | Scaling a cohort by k > 0 scales the direct path's funded count and net by k. |
| Simulator.RoundDirect | prop.py:40-44 | Funded is displayed within half a unit at 1 decimal, and the net within half a unit at 2 decimals. Each lies on its 1- or 2-decimal grid. |
| Simulator.DirectTable | prop.py:35-45 | The direct table has one row per cohort, in input order, with the cohort as Traders. |
| Simulator.SimulateDirect | prop.py:33-45 | The append loop builds exactly the direct table. |
| Simulator.SameFunded | prop.py:10-43 | The direct path's displayed Funded equals the points path's displayed Funded for every cohort. |
| Simulator.DisplayedTotalDrift | prop.py:23-27 | The displayed total is within one cent of the sum of the two displayed monthly nets. |
| Rounding.RoundedSumDrift | prop.py:23-27 | A sum rounded to cents and the sum of its two parts rounded to cents differ by at most one cent. |
| Rounding.CentsDrift | prop.py:23-27 | Three whole-cent amounts, each within half a cent of a + b, a and b: the first is within one cent of the sum of the other two. |
| Simulator.Combine | prop.py:110-115 | The positional join has one row per cohort. Row i holds cohort i, the points path's displayed month-1 net, the direct path's displayed net, and their sum. |
| Simulator.CombinedTable | prop.py:110-115 | The comparison built from the script's two displayed tables has one row per cohort, and row i's Traders field is cohort i. |
| Simulator.CombinedOfTables | prop.py:110-115 | Row i's combined total is the rounded points month-1 net plus the rounded direct net for cohort i. |
| Simulator.CombinedDrift | prop.py:114 | A combined total is within one cent of the exact combined first-month revenue. |
| Simulator.Project | prop.py:50-115 | An unparsable cohort text gives the parse error. Otherwise the result is the points, direct and combined tables of the parsed cohorts. |
| Simulator.DefaultPointsRow | prop.py:10-28 | A cohort of 100 under the default parameters shows 60 funded, 3960 expense, 5916 month-1 net, ROI 149.4, 24 withdrawers, 1416 month-2 net, 7332 total and ROI 185.2. |
| Simulator.DefaultExactRow | prop.py:10-17 | The same cohort's exact figures before rounding. |
| Simulator.DefaultRois | prop.py:24-28 | The default cohort's exact ROIs (149.39…% and 185.15…%) are shown as 149.4 and 185.2. |
| Simulator.DefaultDirectRow | prop.py:37-43 | The direct path for a cohort of 100 under the defaults shows 60 funded and 600 net. |
| Simulator.SingleCohort | prop.py:8-45 | For a single cohort, each table is that cohort's one displayed row. |
| Simulator.DefaultTables | prop.py:5-45 | Both displayed tables for the single cohort 100 under the default parameters. |
| Simulator.DefaultCombined | prop.py:110-115 | The comparison table for the single cohort 100 under the defaults is one row: 5916 + 600 = 6516. |

## Left out

- Streamlit is not modelled: the sidebar widgets, titles, markdown, tables and bar chart are UI only. The slider and number-input values become method parameters, and their ranges are not enforced.
- The literal "unit economics" and "direct mechanics" tables are not modelled. They are fixed strings with no computation.
- pandas DataFrames are modelled as sequences of row records. Column selection and `set_index` are left out.
- IEEE-754 binary floats are not modelled. The script's float literals and products are exact reals here, so a result whose float value lies on the other side of a rounding boundary may display differently.
- Float overflow and `int`'s digit limit are not modelled. The model returns finite tables for every cohort size, but the script does not:
  - a cohort of 2^1024 or more makes `trader * pass_rate` (prop.py:10) raise an overflow error;
  - a cohort near 5e306 makes the expense, month-1 net and total columns infinite under the default fee, so the ROI columns show NaN (prop.py:11-17);
  - in Python 3.11, and in the 2022 security releases of 3.7–3.10, `int` (prop.py:50) rejects a literal of more than 4300 digits, leading zeros included.
- Rounding.RoundTo: ties are broken to even on exact reals. Python's `round` breaks ties on the binary float, which is rarely exactly halfway. The tie rule is stated only for NearestInt; every property proved about RoundTo holds for any nearest rounding.
- Cohorts.ParseInt: it accepts only an optional sign followed by ASCII digits. `int`'s underscores between digits and its non-ASCII decimal digits are not accepted.
- Simulator.Combine: it requires both tables to have one row per cohort. The script always builds them that way, and pandas' index alignment on other inputs is not modelled.
- Simulator.PointsPerTrader: scaling a cohort by k is stated as each figure being the cohort size times a per-trader figure, not as a direct k-fold comparison of two rows. The displayed (rounded) columns scale only up to rounding, and this is not stated.
