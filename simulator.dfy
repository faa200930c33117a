/**
 * The partnership revenue calculator: per-cohort projections for the points
 * path (a challenge fee is fronted, two months of net revenue follow) and
 * for the direct-purchase path (one month of net revenue, no fee), and the
 * table that sets their first-month results side by side.
 *
 * Amounts are exact reals. Each row is first computed exactly (`PointsRow`,
 * `DirectRow`) and then rounded for display the way the calculator rounds
 * it: counts of traders and ROI percentages to 1 decimal, money to 2.
 */
module Simulator {
  import opened Rounding
  import Cohorts

  /** One points-path row: the columns of the calculator's points table. */
  datatype PointsRow = PointsRow(
    traders: int,
    funded: real,
    expense: real,
    netMonth1: real,
    roiMonth1: real,
    withdrawersMonth2: real,
    netMonth2: real,
    totalNet: real,
    roiCombined: real)

  /** One direct-path row. */
  datatype DirectRow = DirectRow(traders: int, funded: real, netDirectMonth1: real)

  /** One row of the two-path first-month comparison. */
  datatype CombinedRow = CombinedRow(traders: int, pointsNet: real, directNet: real, totalNetCombined: real)

  // ------------------------------------------------------------- points path

  /** ROI in percent: the net as a percentage of a positive expense, and 0 when nothing was
      spent (no division happens then). */
  function Roi(net: real, expense: real): (roi: real)
    ensures expense > 0.0 ==> roi * expense == net * 100.0
    ensures expense <= 0.0 ==> roi == 0.0
  {
    if expense > 0.0 then
      assert (net / expense) * expense == net;
      net / expense * 100.0
    else 0.0
  }

  /** The exact points-path figures for one cohort; rates are fractions. */
  function PointsRowOf(trader: int, passRate: real, withdrawRate: real,
                       challengeFee: real, netP1: real, netP2: real): (row: PointsRow)
  {
    PointsFigures(trader, trader as real * passRate, trader as real * challengeFee, withdrawRate, netP1, netP2)
  }

  /** The rest of a points row once the funded count and the expense are known. The row is built
      in these two steps, each naming the figures the next one reuses, so that every product in
      the script's formulas appears once and is not repeated inside the later ones. */
  function PointsFigures(trader: int, funded: real, expense: real, withdrawRate: real,
                         netP1: real, netP2: real): PointsRow
  {
    PointsRowFrom(trader, funded, expense, funded * netP1, funded * withdrawRate, funded * withdrawRate * netP2)
  }

  /** A points row from its counts and monthly nets: the total and both ROIs follow. */
  function PointsRowFrom(trader: int, funded: real, expense: real, netMonth1: real,
                         withdrawers: real, netMonth2: real): PointsRow
  {
    PointsRow(
      traders := trader,
      funded := funded,
      expense := expense,
      netMonth1 := netMonth1,
      roiMonth1 := Roi(netMonth1, expense),
      withdrawersMonth2 := withdrawers,
      netMonth2 := netMonth2,
      totalNet := netMonth1 + netMonth2,
      roiCombined := Roi(netMonth1 + netMonth2, expense))
  }

  /** A points row as displayed: counts and ROI to 1 decimal, money to 2. */
  function RoundPoints(row: PointsRow): (shown: PointsRow)
    ensures shown.traders == row.traders
    ensures -HalfUnit(1) <= shown.funded - row.funded <= HalfUnit(1)
    ensures -HalfUnit(2) <= shown.expense - row.expense <= HalfUnit(2)
    ensures -HalfUnit(2) <= shown.netMonth1 - row.netMonth1 <= HalfUnit(2)
    ensures -HalfUnit(1) <= shown.roiMonth1 - row.roiMonth1 <= HalfUnit(1)
    ensures -HalfUnit(1) <= shown.withdrawersMonth2 - row.withdrawersMonth2 <= HalfUnit(1)
    ensures -HalfUnit(2) <= shown.netMonth2 - row.netMonth2 <= HalfUnit(2)
    ensures -HalfUnit(2) <= shown.totalNet - row.totalNet <= HalfUnit(2)
    ensures -HalfUnit(1) <= shown.roiCombined - row.roiCombined <= HalfUnit(1)
    ensures OnGrid(shown.funded, 1) && OnGrid(shown.withdrawersMonth2, 1)
    ensures OnGrid(shown.roiMonth1, 1) && OnGrid(shown.roiCombined, 1)
    ensures OnGrid(shown.expense, 2) && OnGrid(shown.netMonth1, 2)
    ensures OnGrid(shown.netMonth2, 2) && OnGrid(shown.totalNet, 2)
  {
    PointsRow(
      traders := row.traders,
      funded := RoundTo(row.funded, 1),
      expense := RoundTo(row.expense, 2),
      netMonth1 := RoundTo(row.netMonth1, 2),
      roiMonth1 := RoundTo(row.roiMonth1, 1),
      withdrawersMonth2 := RoundTo(row.withdrawersMonth2, 1),
      netMonth2 := RoundTo(row.netMonth2, 2),
      totalNet := RoundTo(row.totalNet, 2),
      roiCombined := RoundTo(row.roiCombined, 1))
  }

  /** The displayed points table: one rounded row per cohort, in cohort order. */
  function PointsTable(traders: seq<int>, passRatePct: real, withdrawRatePct: real,
                       challengeFee: real, netP1: real, netP2: real): (rows: seq<PointsRow>)
    ensures |rows| == |traders|
    ensures forall i :: 0 <= i < |traders| ==> rows[i].traders == traders[i]
  {
    seq(|traders|, i requires 0 <= i < |traders| =>
      RoundPoints(PointsRowOf(traders[i], passRatePct / 100.0, withdrawRatePct / 100.0,
                              challengeFee, netP1, netP2)))
  }

  /** `simulate_points`: build the points table row by row. */
  method SimulatePoints(traders: seq<int>, passRatePct: real, withdrawRatePct: real,
                        challengeFee: real, netP1: real, netP2: real) returns (rows: seq<PointsRow>)
    ensures rows == PointsTable(traders, passRatePct, withdrawRatePct, challengeFee, netP1, netP2)
  {
    var passRate := passRatePct / 100.0;
    var withdrawRate := withdrawRatePct / 100.0;
    rows := [];
    for k := 0 to |traders|
      invariant |rows| == k
      invariant forall j :: 0 <= j < k ==>
        rows[j] == RoundPoints(PointsRowOf(traders[j], passRate, withdrawRate, challengeFee, netP1, netP2))
    {
      var row := RoundPoints(PointsRowOf(traders[k], passRate, withdrawRate, challengeFee, netP1, netP2));
      rows := rows + [row];
    }
  }

  // ------------------------------------------------------------- direct path

  /** The exact direct-path figures for one cohort; the pass rate is a fraction. */
  function DirectRowOf(trader: int, passRate: real, netDirect: real): (row: DirectRow)
    ensures row.traders == trader
    ensures row.funded == trader as real * passRate
    ensures row.netDirectMonth1 == row.funded * netDirect
  {
    DirectRow(trader, trader as real * passRate, trader as real * passRate * netDirect)
  }

  /** A direct row as displayed: funded to 1 decimal, money to 2. */
  function RoundDirect(row: DirectRow): (shown: DirectRow)
    ensures shown.traders == row.traders
    ensures -HalfUnit(1) <= shown.funded - row.funded <= HalfUnit(1)
    ensures -HalfUnit(2) <= shown.netDirectMonth1 - row.netDirectMonth1 <= HalfUnit(2)
    ensures OnGrid(shown.funded, 1) && OnGrid(shown.netDirectMonth1, 2)
  {
    DirectRow(row.traders, RoundTo(row.funded, 1), RoundTo(row.netDirectMonth1, 2))
  }

  /** The displayed direct table: one rounded row per cohort, in cohort order. */
  function DirectTable(traders: seq<int>, passRatePct: real, netDirect: real): (rows: seq<DirectRow>)
    ensures |rows| == |traders|
    ensures forall i :: 0 <= i < |traders| ==> rows[i].traders == traders[i]
  {
    seq(|traders|, i requires 0 <= i < |traders| =>
      RoundDirect(DirectRowOf(traders[i], passRatePct / 100.0, netDirect)))
  }

  /** `simulate_direct`: build the direct table row by row. */
  method SimulateDirect(traders: seq<int>, passRatePct: real, netDirect: real) returns (rows: seq<DirectRow>)
    ensures rows == DirectTable(traders, passRatePct, netDirect)
  {
    var passRate := passRatePct / 100.0;
    rows := [];
    for k := 0 to |traders|
      invariant |rows| == k
      invariant forall j :: 0 <= j < k ==> rows[j] == RoundDirect(DirectRowOf(traders[j], passRate, netDirect))
    {
      var row := RoundDirect(DirectRowOf(traders[k], passRate, netDirect));
      rows := rows + [row];
    }
  }

  // ------------------------------------------------------------- combined

  /** The two-path comparison: a positional join of the two displayed tables. */
  function Combine(traders: seq<int>, points: seq<PointsRow>, direct: seq<DirectRow>): (rows: seq<CombinedRow>)
    requires |points| == |traders| && |direct| == |traders|
    ensures |rows| == |traders|
    ensures forall i :: 0 <= i < |traders| ==>
      rows[i].traders == traders[i]
      && rows[i].pointsNet == points[i].netMonth1
      && rows[i].directNet == direct[i].netDirectMonth1
      && rows[i].totalNetCombined == rows[i].pointsNet + rows[i].directNet
  {
    seq(|traders|, i requires 0 <= i < |traders| =>
      CombinedRow(traders[i], points[i].netMonth1, direct[i].netDirectMonth1,
                  points[i].netMonth1 + direct[i].netDirectMonth1))
  }

  /** The comparison table built from the two displayed tables of the same cohorts. */
  function CombinedTable(traders: seq<int>, passRatePct: real, withdrawRatePct: real, challengeFee: real,
                         netP1: real, netP2: real, netDirect: real): (rows: seq<CombinedRow>)
    ensures |rows| == |traders|
    ensures forall i :: 0 <= i < |traders| ==> rows[i].traders == traders[i]
  {
    Combine(traders, PointsTable(traders, passRatePct, withdrawRatePct, challengeFee, netP1, netP2),
            DirectTable(traders, passRatePct, netDirect))
  }

  /** The script's flow: parse the cohort text, build both tables, join them. */
  method Project(text: string, passRatePct: real, withdrawRatePct: real, challengeFee: real,
                 netP1: real, netP2: real, netDirect: real)
    returns (r: Cohorts.Result<(seq<PointsRow>, seq<DirectRow>, seq<CombinedRow>)>)
    ensures Cohorts.ParseCohorts(text).Err? ==> r == Cohorts.Err(Cohorts.ParseCohorts(text).error)
    ensures Cohorts.ParseCohorts(text).Ok? ==> (r.Ok?
      && r.value.0 == PointsTable(Cohorts.ParseCohorts(text).value, passRatePct, withdrawRatePct, challengeFee, netP1, netP2)
      && r.value.1 == DirectTable(Cohorts.ParseCohorts(text).value, passRatePct, netDirect)
      && r.value.2 == CombinedTable(Cohorts.ParseCohorts(text).value, passRatePct, withdrawRatePct,
                                    challengeFee, netP1, netP2, netDirect))
  {
    var parsed := Cohorts.ParseCohorts(text);
    if parsed.Err? {
      return Cohorts.Err(parsed.error);
    }
    var traders := parsed.value;
    var points := SimulatePoints(traders, passRatePct, withdrawRatePct, challengeFee, netP1, netP2);
    var direct := SimulateDirect(traders, passRatePct, netDirect);
    r := Cohorts.Ok((points, direct, Combine(traders, points, direct)));
  }

  // ------------------------------------------------------------- properties

  /** How the points figures depend on each other before rounding: funded and expense are per
      cohort member, the month-1 net and the withdrawers follow from the funded count, the
      month-2 net from the withdrawers, and the total adds both months. */
  lemma PointsRelations(trader: int, passRate: real, withdrawRate: real,
                        challengeFee: real, netP1: real, netP2: real)
    ensures PointsRowOf(trader, passRate, withdrawRate, challengeFee, netP1, netP2).traders == trader
    ensures PointsRowOf(trader, passRate, withdrawRate, challengeFee, netP1, netP2).funded
         == trader as real * passRate
    ensures PointsRowOf(trader, passRate, withdrawRate, challengeFee, netP1, netP2).expense
         == trader as real * challengeFee
    ensures PointsRowOf(trader, passRate, withdrawRate, challengeFee, netP1, netP2).netMonth1
         == PointsRowOf(trader, passRate, withdrawRate, challengeFee, netP1, netP2).funded * netP1
    ensures PointsRowOf(trader, passRate, withdrawRate, challengeFee, netP1, netP2).withdrawersMonth2
         == PointsRowOf(trader, passRate, withdrawRate, challengeFee, netP1, netP2).funded * withdrawRate
    ensures PointsRowOf(trader, passRate, withdrawRate, challengeFee, netP1, netP2).netMonth2
         == PointsRowOf(trader, passRate, withdrawRate, challengeFee, netP1, netP2).withdrawersMonth2 * netP2
    ensures PointsRowOf(trader, passRate, withdrawRate, challengeFee, netP1, netP2).totalNet
         == PointsRowOf(trader, passRate, withdrawRate, challengeFee, netP1, netP2).netMonth1
          + PointsRowOf(trader, passRate, withdrawRate, challengeFee, netP1, netP2).netMonth2
  {
  }

  /** Both ROIs are percentages of the expense when something was spent, and exactly 0 when
      nothing was (no division happens then). */
  lemma PointsRoi(trader: int, passRate: real, withdrawRate: real,
                  challengeFee: real, netP1: real, netP2: real)
    ensures PointsRowOf(trader, passRate, withdrawRate, challengeFee, netP1, netP2).expense > 0.0 ==>
      PointsRowOf(trader, passRate, withdrawRate, challengeFee, netP1, netP2).roiMonth1
      * PointsRowOf(trader, passRate, withdrawRate, challengeFee, netP1, netP2).expense
      == PointsRowOf(trader, passRate, withdrawRate, challengeFee, netP1, netP2).netMonth1 * 100.0
    ensures PointsRowOf(trader, passRate, withdrawRate, challengeFee, netP1, netP2).expense > 0.0 ==>
      PointsRowOf(trader, passRate, withdrawRate, challengeFee, netP1, netP2).roiCombined
      * PointsRowOf(trader, passRate, withdrawRate, challengeFee, netP1, netP2).expense
      == PointsRowOf(trader, passRate, withdrawRate, challengeFee, netP1, netP2).totalNet * 100.0
    ensures PointsRowOf(trader, passRate, withdrawRate, challengeFee, netP1, netP2).expense <= 0.0 ==>
      PointsRowOf(trader, passRate, withdrawRate, challengeFee, netP1, netP2).roiMonth1 == 0.0
      && PointsRowOf(trader, passRate, withdrawRate, challengeFee, netP1, netP2).roiCombined == 0.0
  {
  }

  /** With a non-negative cohort and both rates between 0% and 100%,
      0 <= withdrawers <= funded <= traders before rounding. */
  lemma FundedBounds(trader: int, passRatePct: real, withdrawRatePct: real,
                     challengeFee: real, netP1: real, netP2: real)
    requires trader >= 0
    requires 0.0 <= passRatePct <= 100.0 && 0.0 <= withdrawRatePct <= 100.0
    ensures 0.0 <= PointsRowOf(trader, passRatePct / 100.0, withdrawRatePct / 100.0, challengeFee, netP1, netP2)
                     .withdrawersMonth2
    ensures PointsRowOf(trader, passRatePct / 100.0, withdrawRatePct / 100.0, challengeFee, netP1, netP2)
              .withdrawersMonth2
         <= PointsRowOf(trader, passRatePct / 100.0, withdrawRatePct / 100.0, challengeFee, netP1, netP2).funded
    ensures PointsRowOf(trader, passRatePct / 100.0, withdrawRatePct / 100.0, challengeFee, netP1, netP2).funded
         <= trader as real
  {
    var t := trader as real;
    FractionOf(t, passRatePct / 100.0);
    FractionOf(t * (passRatePct / 100.0), withdrawRatePct / 100.0);
  }

  /** Taking a fraction in [0, 1] of a non-negative amount gives at most that amount. */
  lemma FractionOf(a: real, f: real)
    requires a >= 0.0 && 0.0 <= f <= 1.0
    ensures 0.0 <= a * f <= a
  {
    assert a - a * f == a * (1.0 - f);
  }

  /** With no challenge fee nothing is spent, and both ROI columns show exactly 0. */
  lemma ZeroFeeZeroRoi(trader: int, passRate: real, withdrawRate: real, netP1: real, netP2: real)
    ensures RoundPoints(PointsRowOf(trader, passRate, withdrawRate, 0.0, netP1, netP2)).roiMonth1 == 0.0
    ensures RoundPoints(PointsRowOf(trader, passRate, withdrawRate, 0.0, netP1, netP2)).roiCombined == 0.0
  {
    assert OnGrid(0.0, 1) by { assert (0.0 * Scale(1)).Floor == 0; }
    RoundToExact(0.0, 1);
  }

  /** Every points-path count and amount is the cohort size times a per-trader figure, and for a
      non-empty cohort both ROIs are the per-trader ROIs, whatever the cohort size. */
  lemma PointsPerTrader(trader: int, passRate: real, withdrawRate: real,
                        challengeFee: real, netP1: real, netP2: real)
    ensures PointsRowOf(trader, passRate, withdrawRate, challengeFee, netP1, netP2).funded
         == trader as real * passRate
    ensures PointsRowOf(trader, passRate, withdrawRate, challengeFee, netP1, netP2).expense
         == trader as real * challengeFee
    ensures PointsRowOf(trader, passRate, withdrawRate, challengeFee, netP1, netP2).netMonth1
         == trader as real * (passRate * netP1)
    ensures PointsRowOf(trader, passRate, withdrawRate, challengeFee, netP1, netP2).withdrawersMonth2
         == trader as real * (passRate * withdrawRate)
    ensures PointsRowOf(trader, passRate, withdrawRate, challengeFee, netP1, netP2).netMonth2
         == trader as real * (passRate * withdrawRate * netP2)
    ensures PointsRowOf(trader, passRate, withdrawRate, challengeFee, netP1, netP2).totalNet
         == trader as real * (passRate * netP1 + passRate * withdrawRate * netP2)
    ensures trader > 0 ==>
      PointsRowOf(trader, passRate, withdrawRate, challengeFee, netP1, netP2).roiMonth1
      == Roi(passRate * netP1, challengeFee)
    ensures trader > 0 ==>
      PointsRowOf(trader, passRate, withdrawRate, challengeFee, netP1, netP2).roiCombined
      == Roi(passRate * netP1 + passRate * withdrawRate * netP2, challengeFee)
  {
    var t := trader as real;
    Assoc(t, passRate, netP1);
    Assoc(t, passRate, withdrawRate);
    Assoc(t, passRate * withdrawRate, netP2);
    Distrib(t, passRate * netP1, passRate * withdrawRate * netP2);
    if trader > 0 {
      RoiScale(passRate * netP1, challengeFee, t);
      RoiScale(passRate * netP1 + passRate * withdrawRate * netP2, challengeFee, t);
    }
  }

  lemma Distrib(c: real, a: real, b: real)
    ensures c * a + c * b == c * (a + b)
  {
  }

  lemma Assoc(c: real, a: real, b: real)
    ensures (c * a) * b == c * (a * b)
  {
  }

  /** ROI is a ratio: scaling net and expense alike leaves it unchanged. */
  lemma RoiScale(net: real, expense: real, c: real)
    requires c > 0.0
    ensures Roi(c * net, c * expense) == Roi(net, expense)
  {
    if expense > 0.0 {
      assert c * expense > 0.0;
      assert (c * net) / (c * expense) == net / expense;
    } else {
      assert c * expense <= 0.0;
    }
  }

  /** Scaling a cohort by k > 0 scales the direct path's funded count and net by k. */
  lemma DirectScale(trader: int, k: int, passRate: real, netDirect: real)
    requires k > 0
    ensures DirectRowOf(k * trader, passRate, netDirect).funded == k as real * DirectRowOf(trader, passRate, netDirect).funded
    ensures DirectRowOf(k * trader, passRate, netDirect).netDirectMonth1
         == k as real * DirectRowOf(trader, passRate, netDirect).netDirectMonth1
  {
    assert (k * trader) as real == k as real * trader as real;
  }

  /** Both paths count the same funded traders for every cohort, exactly and as displayed. */
  lemma SameFunded(traders: seq<int>, passRatePct: real, withdrawRatePct: real,
                   challengeFee: real, netP1: real, netP2: real, netDirect: real)
    ensures forall i :: 0 <= i < |traders| ==>
      DirectTable(traders, passRatePct, netDirect)[i].funded
      == PointsTable(traders, passRatePct, withdrawRatePct, challengeFee, netP1, netP2)[i].funded
  {
  }

  /** The displayed total differs from the sum of the displayed monthly nets by at most one cent:
      all three are whole cents, and the three roundings together drift by under 1.5 cents. */
  lemma DisplayedTotalDrift(row: PointsRow)
    requires row.totalNet == row.netMonth1 + row.netMonth2
    ensures var shown := RoundPoints(row);
      -0.01 <= shown.totalNet - (shown.netMonth1 + shown.netMonth2) <= 0.01
  {
    RoundedSumDrift(row.netMonth1, row.netMonth2);
  }

  /** Each combined row adds the displayed first-month nets of both paths at the same position. */
  lemma CombinedOfTables(traders: seq<int>, passRatePct: real, withdrawRatePct: real,
                         challengeFee: real, netP1: real, netP2: real, netDirect: real, i: nat)
    requires i < |traders|
    ensures CombinedTable(traders, passRatePct, withdrawRatePct, challengeFee, netP1, netP2, netDirect)[i].traders
         == traders[i]
    ensures CombinedTable(traders, passRatePct, withdrawRatePct, challengeFee, netP1, netP2, netDirect)[i].totalNetCombined
         == RoundTo(traders[i] as real * (passRatePct / 100.0) * netP1, 2)
          + RoundTo(traders[i] as real * (passRatePct / 100.0) * netDirect, 2)
  {
    var points := PointsTable(traders, passRatePct, withdrawRatePct, challengeFee, netP1, netP2);
    var direct := DirectTable(traders, passRatePct, netDirect);
    assert points[i].netMonth1 == RoundTo(traders[i] as real * (passRatePct / 100.0) * netP1, 2);
    assert direct[i].netDirectMonth1 == RoundTo(traders[i] as real * (passRatePct / 100.0) * netDirect, 2);
  }

  /** Because it adds two rounded amounts, a combined total stays within one cent of the exact
      combined first-month revenue. */
  lemma CombinedDrift(traders: seq<int>, passRatePct: real, withdrawRatePct: real,
                      challengeFee: real, netP1: real, netP2: real, netDirect: real, i: nat)
    requires i < |traders|
    ensures -2.0 * HalfUnit(2)
         <= CombinedTable(traders, passRatePct, withdrawRatePct, challengeFee, netP1, netP2, netDirect)[i].totalNetCombined
            - traders[i] as real * (passRatePct / 100.0) * (netP1 + netDirect)
         <= 2.0 * HalfUnit(2)
  {
    var funded := traders[i] as real * (passRatePct / 100.0);
    CombinedOfTables(traders, passRatePct, withdrawRatePct, challengeFee, netP1, netP2, netDirect, i);
    Distrib(funded, netP1, netDirect);
    SumOfRoundedBound(funded * netP1, funded * netDirect, 2);
  }

  /** The figures for a cohort of 100 under the calculator's default parameters. */
  lemma DefaultPointsRow()
    ensures RoundPoints(PointsRowOf(100, 60.0 / 100.0, 40.0 / 100.0, 39.6, 98.6, 59.0))
         == PointsRow(100, 60.0, 3960.0, 5916.0, 149.4, 24.0, 1416.0, 7332.0, 185.2)
  {
    DefaultExactRow();
    DefaultShownRow();
  }

  /** Before rounding: 60 funded, $3960 spent, $5916 then $1416 of net revenue from 24 withdrawers. */
  lemma DefaultExactRow()
    ensures PointsRowOf(100, 60.0 / 100.0, 40.0 / 100.0, 39.6, 98.6, 59.0)
         == PointsRow(100, 60.0, 3960.0, 5916.0, 5916.0 / 3960.0 * 100.0, 24.0, 1416.0, 7332.0,
                      7332.0 / 3960.0 * 100.0)
  {
  }

  lemma DefaultShownRow()
    ensures RoundPoints(PointsRow(100, 60.0, 3960.0, 5916.0, 5916.0 / 3960.0 * 100.0, 24.0, 1416.0, 7332.0,
                                  7332.0 / 3960.0 * 100.0))
         == PointsRow(100, 60.0, 3960.0, 5916.0, 149.4, 24.0, 1416.0, 7332.0, 185.2)
  {
    WholeAmount(60, 1);
    WholeAmount(24, 1);
    WholeAmount(3960, 2);
    WholeAmount(5916, 2);
    WholeAmount(1416, 2);
    WholeAmount(7332, 2);
    DefaultRois();
  }

  /** The default cohort's ROIs, 149.39...% and 185.15...%, are shown as 149.4 and 185.2. */
  lemma DefaultRois()
    ensures RoundTo(5916.0 / 3960.0 * 100.0, 1) == 149.4
    ensures RoundTo(7332.0 / 3960.0 * 100.0, 1) == 185.2
  {
    ScaleValues();
    assert RoundTo(5916.0 / 3960.0 * 100.0, 1) == NearestInt(59160.0 / 39.6) as real / 10.0;
    assert RoundTo(7332.0 / 3960.0 * 100.0, 1) == NearestInt(73320.0 / 39.6) as real / 10.0;
  }

  /** The direct path for a cohort of 100 under the default parameters: 60 funded, $600 net. */
  lemma DefaultDirectRow()
    ensures RoundDirect(DirectRowOf(100, 60.0 / 100.0, 10.0)) == DirectRow(100, 60.0, 600.0)
  {
    DefaultExactDirect();
    DefaultShownDirect();
  }

  lemma DefaultExactDirect()
    ensures DirectRowOf(100, 60.0 / 100.0, 10.0) == DirectRow(100, 60.0, 600.0)
  {
  }

  lemma DefaultShownDirect()
    ensures RoundDirect(DirectRow(100, 60.0, 600.0)) == DirectRow(100, 60.0, 600.0)
  {
    WholeAmount(60, 1);
    WholeAmount(600, 2);
  }

  /** Both displayed tables for the single cohort 100 under the default parameters. */
  lemma DefaultTables()
    ensures PointsTable([100], 60.0, 40.0, 39.6, 98.6, 59.0)
         == [PointsRow(100, 60.0, 3960.0, 5916.0, 149.4, 24.0, 1416.0, 7332.0, 185.2)]
    ensures DirectTable([100], 60.0, 10.0) == [DirectRow(100, 60.0, 600.0)]
  {
    SingleCohort(100, 60.0, 40.0, 39.6, 98.6, 59.0, 10.0);
    DefaultPointsRow();
    DefaultDirectRow();
  }

  /** For a single cohort each table is its one displayed row. */
  lemma SingleCohort(trader: int, passRatePct: real, withdrawRatePct: real, challengeFee: real,
                     netP1: real, netP2: real, netDirect: real)
    ensures PointsTable([trader], passRatePct, withdrawRatePct, challengeFee, netP1, netP2)
         == [RoundPoints(PointsRowOf(trader, passRatePct / 100.0, withdrawRatePct / 100.0, challengeFee, netP1, netP2))]
    ensures DirectTable([trader], passRatePct, netDirect) == [RoundDirect(DirectRowOf(trader, passRatePct / 100.0, netDirect))]
  {
  }

  /** The comparison table for the single cohort 100 under the default parameters. */
  lemma DefaultCombined()
    ensures CombinedTable([100], 60.0, 40.0, 39.6, 98.6, 59.0, 10.0) == [CombinedRow(100, 5916.0, 600.0, 6516.0)]
  {
    DefaultTables();
  }
}
