/**
 * The constant depreciation table of the buyout calculator: one row per month
 * of age, 1 to 48, giving per device class the percentage of the
 * VAT-inclusive cost that the buyout price still charges.  Percentages are
 * kept exactly, as whole hundredths of a percent (6375 stands for 63.75 %).
 */
module DepreciationTable {

  /** The three device classes the table distinguishes. */
  datatype DeviceClass = Computers | Tablets | Phones

  /** One row of the table; the three rates are in hundredths of a percent. */
  datatype RateRow = RateRow(month: int, computers: int, tablets: int, phones: int)
  {
    /** The entry of this row for device class `c`. */
    function Percent(c: DeviceClass): int
    {
      match c
      case Computers => computers
      case Tablets => tablets
      case Phones => phones
    }
  }

  /** The last month the table covers; it is also the number of rows. */
  const LastMonth: int := 48

  /** Smallest and largest entries of the table, in hundredths of a percent. */
  const LowestPercent: int := 1020
  const HighestPercent: int := 7525

  /** The last month in which Tablets and Phones share their rates. */
  const SharedMonths: int := 24

  /** Rows for months 1 to 12. */
  const FirstYear: seq<RateRow> := [
    RateRow(1, 6375, 7525, 7525),
    RateRow(2, 6100, 7250, 7250),
    RateRow(3, 5825, 6975, 6975),
    RateRow(4, 5550, 6700, 6700),
    RateRow(5, 5275, 6425, 6425),
    RateRow(6, 5000, 6150, 6150),
    RateRow(7, 4725, 5875, 5875),
    RateRow(8, 4450, 5600, 5600),
    RateRow(9, 4175, 5325, 5325),
    RateRow(10, 3900, 5050, 5050),
    RateRow(11, 3625, 4775, 4775),
    RateRow(12, 3500, 4500, 4500)
  ]

  /** Rows for months 13 to 24. */
  const SecondYear: seq<RateRow> := [
    RateRow(13, 3425, 4375, 4375),
    RateRow(14, 3350, 4250, 4250),
    RateRow(15, 3275, 4125, 4125),
    RateRow(16, 3200, 4000, 4000),
    RateRow(17, 3125, 3875, 3875),
    RateRow(18, 3050, 3750, 3750),
    RateRow(19, 2975, 3625, 3625),
    RateRow(20, 2900, 3500, 3500),
    RateRow(21, 2825, 3375, 3375),
    RateRow(22, 2750, 3250, 3250),
    RateRow(23, 2675, 3125, 3125),
    RateRow(24, 2600, 3000, 3000)
  ]

  /** Rows for months 25 to 36. */
  const ThirdYear: seq<RateRow> := [
    RateRow(25, 2559, 2959, 2892),
    RateRow(26, 2518, 2918, 2784),
    RateRow(27, 2477, 2877, 2676),
    RateRow(28, 2436, 2836, 2568),
    RateRow(29, 2395, 2795, 2460),
    RateRow(30, 2354, 2754, 2352),
    RateRow(31, 2313, 2713, 2244),
    RateRow(32, 2272, 2672, 2136),
    RateRow(33, 2231, 2631, 2028),
    RateRow(34, 2190, 2590, 1920),
    RateRow(35, 2149, 2549, 1812),
    RateRow(36, 2100, 2500, 1700)
  ]

  /** Rows for months 37 to 48. */
  const FourthYear: seq<RateRow> := [
    RateRow(37, 2010, 2410, 1655),
    RateRow(38, 1920, 2320, 1610),
    RateRow(39, 1830, 2230, 1565),
    RateRow(40, 1740, 2140, 1520),
    RateRow(41, 1650, 2050, 1475),
    RateRow(42, 1560, 1960, 1430),
    RateRow(43, 1470, 1870, 1385),
    RateRow(44, 1380, 1780, 1340),
    RateRow(45, 1290, 1690, 1295),
    RateRow(46, 1200, 1600, 1250),
    RateRow(47, 1110, 1510, 1205),
    RateRow(48, 1020, 1420, 1160)
  ]

  /** The whole table, in the order of its months. */
  const Rates: seq<RateRow> := FirstYear + SecondYear + ThirdYear + FourthYear

  /**
   * What the table promises about row `i` of `rows` and the next one: the row
   * holds month i + 1, its entries lie within [LowestPercent, HighestPercent],
   * Tablets and Phones agree up to SharedMonths and differ after it, and
   * every class is strictly cheaper in the next row.
   */
  predicate RowWellFormed(rows: seq<RateRow>, i: int)
    requires 0 <= i < |rows|
  {
    rows[i].month == i + 1 &&
    LowestPercent <= rows[i].computers <= HighestPercent &&
    LowestPercent <= rows[i].tablets <= HighestPercent &&
    LowestPercent <= rows[i].phones <= HighestPercent &&
    (rows[i].month <= SharedMonths <==> rows[i].tablets == rows[i].phones) &&
    (i + 1 < |rows| ==>
       rows[i + 1].computers < rows[i].computers &&
       rows[i + 1].tablets < rows[i].tablets &&
       rows[i + 1].phones < rows[i].phones)
  }

  /** RowWellFormed for row `i` and every row after it, checked by evaluation. */
  predicate RowsWellFormedFrom(rows: seq<RateRow>, i: nat)
    decreases |rows| - i
  {
    i >= |rows| || (RowWellFormed(rows, i) && RowsWellFormedFrom(rows, i + 1))
  }

  lemma {:induction false} RowsWellFormedFromEach(rows: seq<RateRow>, i: nat)
    requires RowsWellFormedFrom(rows, i)
    ensures forall j :: i <= j < |rows| ==> RowWellFormed(rows, j)
    decreases |rows| - i
  {
    if i < |rows| {
      RowsWellFormedFromEach(rows, i + 1);
    }
  }

  /** RowsWellFormedFrom for the table itself, in a form Dafny evaluates. */
  predicate TableWellFormedFrom(i: nat)
    decreases |Rates| - i
  {
    i >= |Rates| || (RowWellFormed(Rates, i) && TableWellFormedFrom(i + 1))
  }

  lemma {:induction false} TableWellFormedFromRows(i: nat)
    requires TableWellFormedFrom(i)
    ensures RowsWellFormedFrom(Rates, i)
    decreases |Rates| - i
  {
    if i < |Rates| {
      TableWellFormedFromRows(i + 1);
    }
  }

  /** The rows of the fourth year, months 37 to 48, are well formed. */
  lemma FourthYearWellFormed()
    ensures TableWellFormedFrom(36)
  {
  }

  /** The rows from month 25 on are well formed. */
  lemma ThirdYearWellFormed()
    ensures TableWellFormedFrom(24)
  {
    FourthYearWellFormed();
  }

  /** The rows from month 13 on are well formed. */
  lemma SecondYearWellFormed()
    ensures TableWellFormedFrom(12)
  {
    ThirdYearWellFormed();
  }

  /** Every row of the table is well formed. */
  lemma AllRowsWellFormed()
    ensures |Rates| == LastMonth
    ensures forall i :: 0 <= i < |Rates| ==> RowWellFormed(Rates, i)
  {
    SecondYearWellFormed();
    assert TableWellFormedFrom(0);
    TableWellFormedFromRows(0);
    RowsWellFormedFromEach(Rates, 0);
  }

  /** The table has 48 rows, and row i holds month i + 1. */
  lemma MonthsInOrder()
    ensures |Rates| == LastMonth
    ensures forall i :: 0 <= i < |Rates| ==> Rates[i].month == i + 1
  {
    AllRowsWellFormed();
  }

  /** Row `i` holds month i + 1 and its entries lie within the table's bounds. */
  lemma RowFacts(i: int, c: DeviceClass)
    requires 0 <= i < |Rates|
    ensures |Rates| == LastMonth
    ensures Rates[i].month == i + 1
    ensures LowestPercent <= Rates[i].Percent(c) <= HighestPercent
  {
    AllRowsWellFormed();
    assert RowWellFormed(Rates, i);
  }

  /** Tablets and Phones share their entry exactly in the first 24 months. */
  lemma SharedColumns(i: int)
    requires 0 <= i < |Rates|
    ensures i < SharedMonths <==> Rates[i].tablets == Rates[i].phones
  {
    AllRowsWellFormed();
    assert RowWellFormed(Rates, i);
  }

  /** Within each class the rate falls strictly from one month to any later one. */
  lemma {:induction false} StrictlyDecreasing(i: int, j: int, c: DeviceClass)
    requires 0 <= i < j < |Rates|
    ensures Rates[j].Percent(c) < Rates[i].Percent(c)
    decreases j - i
  {
    AllRowsWellFormed();
    assert RowWellFormed(Rates, j - 1);
    if i < j - 1 {
      StrictlyDecreasing(i, j - 1, c);
    }
  }

  /**
   * The shape of the table: 48 rows holding months 1 to 48 in order, every
   * entry between 10.20 % and 75.25 %, Tablets and Phones identical exactly in
   * months 1 to 24, and each class strictly decreasing with the month.
   */
  lemma TableShape()
    ensures |Rates| == LastMonth
    ensures forall i :: 0 <= i < |Rates| ==> Rates[i].month == i + 1
    ensures forall i, c :: 0 <= i < |Rates| ==>
              LowestPercent <= Rates[i].Percent(c) <= HighestPercent
    ensures forall i :: 0 <= i < |Rates| ==>
              (i < SharedMonths <==> Rates[i].tablets == Rates[i].phones)
    ensures forall i, j, c :: 0 <= i < j < |Rates| ==> Rates[j].Percent(c) < Rates[i].Percent(c)
  {
    MonthsInOrder();
    forall i, c | 0 <= i < |Rates|
      ensures LowestPercent <= Rates[i].Percent(c) <= HighestPercent
    {
      RowFacts(i, c);
    }
    forall i | 0 <= i < |Rates|
      ensures i < SharedMonths <==> Rates[i].tablets == Rates[i].phones
    {
      SharedColumns(i);
    }
    forall i, j, c | 0 <= i < j < |Rates|
      ensures Rates[j].Percent(c) < Rates[i].Percent(c)
    {
      StrictlyDecreasing(i, j, c);
    }
  }
}
