/**
 * The buyout calculator: the age of a leased device in whole months, its
 * device class, the depreciation rate for that age and class, the
 * VAT-inclusive cost and the buyout price, and the update that writes these
 * derived values into an asset record.
 *
 * The clock is a parameter (`today`), dates arrive already parsed, and costs
 * arrive as exact decimals (reals).
 */
module BuyoutCalculator {
  import opened Wrappers
  import opened Rounding
  import opened DepreciationTable

  /** VAT added to the original cost: 21 %. */
  const VatRate: real := 0.21

  /** The rate used when no table row matches the age (ages of 0 months or less). */
  const MinimumRate: real := 0.102

  /** The largest rate the table holds, 75.25 %. */
  const MaximumRate: real := 0.7525

  // ---------------------------------------------------------------------------
  // Age in whole months
  // ---------------------------------------------------------------------------

  /** A calendar date as the registry stores it (ISO year-month-day). */
  datatype Date = Date(year: int, month: int, day: int)

  /** Leap years of the proleptic Gregorian calendar. */
  predicate IsLeapYear(year: int)
  {
    year % 4 == 0 && (year % 100 != 0 || year % 400 == 0)
  }

  function DaysInMonth(year: int, month: int): int
    requires 1 <= month <= 12
  {
    if month == 2 then (if IsLeapYear(year) then 29 else 28)
    else if month == 4 || month == 6 || month == 9 || month == 11 then 30
    else 31
  }

  /** A date Python's `date` type can hold. */
  predicate ValidDate(d: Date)
  {
    1 <= d.year <= 9999 && 1 <= d.month <= 12 && 1 <= d.day <= DaysInMonth(d.year, d.month)
  }

  /** Calendar order of dates. */
  predicate OnOrBefore(a: Date, b: Date)
  {
    a.year < b.year ||
    (a.year == b.year && (a.month < b.month || (a.month == b.month && a.day <= b.day)))
  }

  /** Months counted from a fixed origin, so that consecutive months differ by one. */
  function MonthNumber(d: Date): int
  {
    d.year * 12 + d.month
  }

  /**
   * Whether `k` whole months have passed between `purchase` and `today`: the
   * calendar month k months after the purchase month has been reached and,
   * if `today` is in that very month, so has the day of the month of purchase.
   */
  predicate MonthsElapsed(purchase: Date, k: int, today: Date)
  {
    MonthNumber(purchase) + k < MonthNumber(today) ||
    (MonthNumber(purchase) + k == MonthNumber(today) && purchase.day <= today.day)
  }

  /**
   * The number of whole months between `purchase` and `today`, before the
   * floor at 1: the calendar-month difference, less one when the day of the
   * month of purchase has not yet been reached.  It is the largest k for
   * which k months have elapsed (negative when `purchase` is in the future).
   */
  function ElapsedMonths(purchase: Date, today: Date): (k: int)
    ensures MonthsElapsed(purchase, k, today)
    ensures !MonthsElapsed(purchase, k + 1, today)
  {
    var total := (today.year - purchase.year) * 12 + (today.month - purchase.month);
    if today.day < purchase.day then total - 1 else total
  }

  /**
   * calculate_months_since_purchase: 0 for a missing or empty purchase date;
   * otherwise the whole months elapsed, floored at 1, so that any present
   * date, a future one included, gives at least 1.
   */
  function MonthsSincePurchase(purchaseDate: Option<Date>, today: Date): (m: int)
    ensures purchaseDate.None? ==> m == 0
    ensures purchaseDate.Some? ==> m >= 1
    ensures purchaseDate.Some? && m > 1 ==> MonthsElapsed(purchaseDate.value, m, today)
    ensures purchaseDate.Some? ==> !MonthsElapsed(purchaseDate.value, m + 1, today)
  {
    match purchaseDate
    case None => 0
    case Some(purchase) =>
      var total := ElapsedMonths(purchase, today);
      if total < 1 then 1 else total
  }

  /** For a fixed purchase date the age never decreases as `today` advances. */
  lemma AgeMonotone(purchase: Date, today: Date, later: Date)
    requires ValidDate(today) && ValidDate(later)
    requires OnOrBefore(today, later)
    ensures MonthsSincePurchase(Some(purchase), today) <= MonthsSincePurchase(Some(purchase), later)
  {
    var k := ElapsedMonths(purchase, today);
    assert MonthsElapsed(purchase, k, later);
  }

  // ---------------------------------------------------------------------------
  // Device class
  // ---------------------------------------------------------------------------

  /** An ASCII capital letter, the only characters `.lower()` changes here. */
  predicate IsCapital(ch: char)
  {
    'A' <= ch <= 'Z'
  }

  /** Lower-case of an ASCII letter; every other character is left as it is. */
  function LowerChar(ch: char): (lc: char)
    ensures IsCapital(ch) ==> 'a' <= lc <= 'z' && lc as int == ch as int + 32
    ensures !IsCapital(ch) ==> lc == ch
    ensures !IsCapital(lc)
  {
    if IsCapital(ch) then (ch as int + 32) as char else ch
  }

  /**
   * `s.lower()`, character by character: every capital becomes its small
   * letter, every other character stays, and no capital is left.
   */
  function Lower(s: string): (l: string)
    ensures |l| == |s|
    ensures forall i :: 0 <= i < |s| && IsCapital(s[i]) ==> l[i] as int == s[i] as int + 32
    ensures forall i :: 0 <= i < |s| && !IsCapital(s[i]) ==> l[i] == s[i]
    ensures forall i :: 0 <= i < |s| ==> !IsCapital(l[i])
  {
    seq(|s|, i requires 0 <= i < |s| => LowerChar(s[i]))
  }

  /** Lower-casing twice is lower-casing once. */
  lemma LowerIdempotent(s: string)
    ensures Lower(Lower(s)) == Lower(s)
  {
    var l := Lower(s);
    assert forall i :: 0 <= i < |l| ==> Lower(l)[i] == l[i];
  }

  /** A string that agrees with `s` lower-cased character by character is Lower(s). */
  lemma LowerIs(s: string, t: string)
    requires |t| == |s|
    requires forall i :: 0 <= i < |s| ==> t[i] == LowerChar(s[i])
    ensures Lower(s) == t
  {
  }

  /** `sub` occurs in `s` starting at position `i`. */
  predicate OccursAt(s: string, sub: string, i: int)
  {
    0 <= i && i + |sub| <= |s| && s[i..i + |sub|] == sub
  }

  /** Python's `sub in s`: some position of `s` starts an occurrence of `sub`. */
  function Contains(s: string, sub: string): (b: bool)
    ensures b <==> exists i :: OccursAt(s, sub, i)
    decreases |s|
  {
    if |s| < |sub| then false
    else if s[..|sub|] == sub then (assert OccursAt(s, sub, 0); true)
    else
      var rest := Contains(s[1..], sub);
      assert forall i :: OccursAt(s[1..], sub, i) <==> OccursAt(s, sub, i + 1) by {
        forall i ensures OccursAt(s[1..], sub, i) <==> OccursAt(s, sub, i + 1) {
          if 0 <= i && i + |sub| <= |s| - 1 {
            assert s[1..][i..i + |sub|] == s[i + 1..i + 1 + |sub|];
          }
        }
      }
      assert !OccursAt(s, sub, 0);
      assert forall i :: OccursAt(s, sub, i) ==> OccursAt(s[1..], sub, i - 1);
      rest
  }

  /**
   * The device class of a free-text object type name: "tablet" anywhere in
   * the lower-cased name wins, then "phone"; a missing or empty name, and any
   * other name, means Computers.
   */
  function DeviceClassOf(typeName: Option<string>): (c: DeviceClass)
    ensures c == Tablets <==> typeName.Some? && Contains(Lower(typeName.value), "tablet")
    ensures c == Phones <==>
              typeName.Some? && !Contains(Lower(typeName.value), "tablet") &&
              Contains(Lower(typeName.value), "phone")
  {
    match typeName
    case None => Computers
    case Some(name) =>
      if name == "" then Computers
      else if Contains(Lower(name), "tablet") then Tablets
      else if Contains(Lower(name), "phone") then Phones
      else Computers
  }

  /** A string lacking one of the characters of `sub` does not contain `sub`. */
  lemma MissingCharacter(s: string, sub: string, k: int)
    requires 0 <= k < |sub|
    requires forall i :: 0 <= i < |s| ==> s[i] != sub[k]
    ensures !Contains(s, sub)
  {
  }

  /** "tablet" is looked for before "phone": "Tablet Phone" is a tablet. */
  lemma TabletBeforePhone()
    ensures DeviceClassOf(Some("Tablet Phone")) == Tablets
  {
    var name := Lower("Tablet Phone");
    assert name == "tablet phone" by { LowerIs("Tablet Phone", "tablet phone"); }
    assert Contains(name, "tablet") by { assert OccursAt(name, "tablet", 0); }
  }

  /** "phone" may occur inside a word: "Telephone" is a phone. */
  lemma PhoneInsideWord()
    ensures DeviceClassOf(Some("Telephone")) == Phones
  {
    var name := Lower("Telephone");
    assert name == "telephone" by { LowerIs("Telephone", "telephone"); }
    assert !Contains(name, "tablet") by { MissingCharacter(name, "tablet", 1); }
    assert Contains(name, "phone") by { assert OccursAt(name, "phone", 4); }
  }

  /** A name with neither word, an empty name and a missing name all mean Computers. */
  lemma ComputersByDefault()
    ensures DeviceClassOf(Some("Laptop")) == Computers
    ensures DeviceClassOf(Some("")) == Computers
    ensures DeviceClassOf(None) == Computers
  {
    var name := Lower("Laptop");
    assert name == "laptop" by { LowerIs("Laptop", "laptop"); }
    assert !Contains(name, "tablet") by { MissingCharacter(name, "tablet", 2); }
    assert !Contains(name, "phone") by { MissingCharacter(name, "phone", 1); }
  }

  // ---------------------------------------------------------------------------
  // Depreciation rate
  // ---------------------------------------------------------------------------

  /** The table entry for `month` as a fraction (the percentage divided by 100). */
  function TableRate(month: int, c: DeviceClass): (r: real)
    requires 1 <= month <= LastMonth
    ensures MinimumRate <= r <= MaximumRate
  {
    RowFacts(month - 1, c);
    Rates[month - 1].Percent(c) as real / 10000.0
  }

  /**
   * The rate get_depreciation_rate returns: ages above 48 months use the
   * month-48 row, ages 1 to 48 their own row, and MinimumRate applies only
   * to ages of 0 months or less, for which no row matches.
   */
  function DepreciationRate(months: int, c: DeviceClass): (r: real)
    ensures MinimumRate <= r <= MaximumRate
  {
    if months <= 0 then MinimumRate
    else
      var month := if months > LastMonth then LastMonth else months;
      TableRate(month, c)
  }

  /** Beyond 48 months the month-48 row applies: 10.2 %, 14.2 % and 11.6 %. */
  lemma RateBeyondTable(months: int)
    requires months > LastMonth
    ensures DepreciationRate(months, Computers) == 0.102
    ensures DepreciationRate(months, Tablets) == 0.142
    ensures DepreciationRate(months, Phones) == 0.116
  {
    assert Rates[LastMonth - 1] == RateRow(48, 1020, 1420, 1160);
  }

  /**
   * From month 1 on the rate never increases with age, and strictly
   * decreases while the age stays within the table.
   */
  lemma {:induction false} RateNonIncreasing(months: int, later: int, c: DeviceClass)
    requires 1 <= months <= later
    ensures DepreciationRate(later, c) <= DepreciationRate(months, c)
    ensures later <= LastMonth && months < later ==>
              DepreciationRate(later, c) < DepreciationRate(months, c)
  {
    var i := if months > LastMonth then LastMonth - 1 else months - 1;
    var j := if later > LastMonth then LastMonth - 1 else later - 1;
    assert DepreciationRate(months, c) == TableRate(i + 1, c);
    assert DepreciationRate(later, c) == TableRate(j + 1, c);
    if i < j {
      StrictlyDecreasing(i, j, c);
    }
  }

  /**
   * get_depreciation_rate: caps the age at 48 and scans the table for the row
   * of that month, returning its entry divided by 100; MinimumRate when no
   * row matches.
   */
  method GetDepreciationRate(months: int, c: DeviceClass) returns (rate: real)
    ensures rate == DepreciationRate(months, c)
  {
    MonthsInOrder();
    var lookupMonth := if months < LastMonth then months else LastMonth;
    var i := 0;
    while i < |Rates|
      invariant 0 <= i <= |Rates|
      invariant forall j :: 0 <= j < i ==> Rates[j].month != lookupMonth
    {
      if Rates[i].month == lookupMonth {
        return Rates[i].Percent(c) as real / 10000.0;
      }
      i := i + 1;
    }
    return MinimumRate;
  }

  // ---------------------------------------------------------------------------
  // Money values
  // ---------------------------------------------------------------------------

  /**
   * calculate_cost_with_vat: nothing for a missing or empty cost; otherwise
   * cost + cost * 21 %, rounded half-up to whole cents.
   */
  function CostWithVat(originalCost: Option<real>): (r: Option<real>)
    ensures r.None? <==> originalCost.None?
    ensures r.Some? ==> IsCents(r.value)
    ensures r.Some? && originalCost.value >= 0.0 ==>
              0.0 <= r.value && originalCost.value * 1.21 - 0.005 < r.value <= originalCost.value * 1.21 + 0.005
    ensures r.Some? && originalCost.value < 0.0 ==>
              originalCost.value * 1.21 - 0.005 <= r.value < originalCost.value * 1.21 + 0.005
  {
    match originalCost
    case None => None
    case Some(cost) =>
      var vatAmount := cost * VatRate;
      Some(QuantizeCents(cost + vatAmount))
  }

  /** "100.00" gives exactly 121.00. */
  lemma CostWithVatExample()
    ensures CostWithVat(Some(100.0)) == Some(121.0)
  {
    QuantizeCentsOfCents(121.0);
  }

  /** A larger cost never gives a smaller VAT-inclusive cost. */
  lemma CostWithVatMonotone(cost: real, larger: real)
    requires cost <= larger
    ensures CostWithVat(Some(cost)).value <= CostWithVat(Some(larger)).value
  {
    QuantizeCentsMonotone(cost + cost * VatRate, larger + larger * VatRate);
  }

  /** The buyout price: the VAT-inclusive cost times the rate, rounded half-up to cents. */
  function BuyoutPrice(costWithVat: real, rate: real): (r: real)
    ensures IsCents(r)
  {
    QuantizeCents(costWithVat * rate)
  }

  /** For a non-negative cost the buyout lies between 0 and the VAT-inclusive cost. */
  lemma BuyoutWithinCost(costWithVat: real, rate: real)
    requires IsCents(costWithVat) && costWithVat >= 0.0
    requires 0.0 <= rate <= 1.0
    ensures 0.0 <= BuyoutPrice(costWithVat, rate) <= costWithVat
  {
    assert 0.0 <= costWithVat * rate <= costWithVat * 1.0;
    QuantizeCentsMonotone(costWithVat * rate, costWithVat);
    QuantizeCentsOfCents(costWithVat);
  }

  lemma ScaleMonotone(a: real, x: real, y: real)
    requires a >= 0.0 && x <= y
    ensures a * x <= a * y
  {
    assert a * y - a * x == a * (y - x);
  }

  /** For a non-negative cost a lower rate never gives a higher buyout. */
  lemma BuyoutMonotoneInRate(costWithVat: real, rate: real, higher: real)
    requires costWithVat >= 0.0 && rate <= higher
    ensures BuyoutPrice(costWithVat, rate) <= BuyoutPrice(costWithVat, higher)
  {
    ScaleMonotone(costWithVat, rate, higher);
    QuantizeCentsMonotone(costWithVat * rate, costWithVat * higher);
  }

  /** For a fixed cost and class the buyout never grows as the age grows from 1 month on. */
  lemma BuyoutNonIncreasing(costWithVat: real, c: DeviceClass, months: int, later: int)
    requires costWithVat >= 0.0
    requires 1 <= months <= later
    ensures BuyoutPrice(costWithVat, DepreciationRate(later, c))
         <= BuyoutPrice(costWithVat, DepreciationRate(months, c))
  {
    RateNonIncreasing(months, later, c);
    BuyoutMonotoneInRate(costWithVat, DepreciationRate(later, c), DepreciationRate(months, c));
  }

  // ---------------------------------------------------------------------------
  // The asset record
  // ---------------------------------------------------------------------------

  /**
   * The keys of the asset dictionary that the calculator reads or writes.
   * `None` is a key that is absent (or, for the inputs, holds an empty
   * value); costs and rates are numbers rather than their string renderings,
   * and the depreciation rate is kept as a percentage.
   */
  datatype AssetFields = AssetFields(
    originalCost: Option<real>,
    purchaseDate: Option<Date>,
    objectTypeName: Option<string>,
    ageMonths: Option<int>,
    deviceType: Option<DeviceClass>,
    costWithVat: Option<real>,
    depreciationPercent: Option<real>,
    buyoutPrice: Option<real>)

  /**
   * The record calculate_buyout_price leaves behind.  Without an original
   * cost nothing changes, not even the age.  Otherwise the age and the device
   * class are always written, and the VAT-inclusive cost, the rate and the
   * buyout price only when the VAT-inclusive cost is not zero.  The three
   * inputs are never written.
   */
  function Recalculated(a: AssetFields, today: Date): (r: AssetFields)
    ensures r.originalCost == a.originalCost
    ensures r.purchaseDate == a.purchaseDate
    ensures r.objectTypeName == a.objectTypeName
    ensures a.originalCost.None? ==> r == a
    ensures a.originalCost.Some? ==> r.ageMonths.Some? && r.deviceType.Some?
    ensures (r.costWithVat != a.costWithVat || r.depreciationPercent != a.depreciationPercent ||
             r.buyoutPrice != a.buyoutPrice) ==>
              a.originalCost.Some? && CostWithVat(a.originalCost) != Some(0.0)
    ensures a.originalCost.Some? && CostWithVat(a.originalCost) != Some(0.0) ==>
              r.costWithVat.Some? && r.depreciationPercent.Some? && r.buyoutPrice.Some?
  {
    if a.originalCost.None? then a
    else
      var months := MonthsSincePurchase(a.purchaseDate, today);
      var c := DeviceClassOf(a.objectTypeName);
      var withAge := a.(ageMonths := Some(months), deviceType := Some(c));
      var costWithVat := CostWithVat(a.originalCost).value;
      if costWithVat == 0.0 then withAge
      else
        var rate := DepreciationRate(months, c);
        withAge.(costWithVat := Some(costWithVat),
                 depreciationPercent := Some(rate * 100.0),
                 buyoutPrice := Some(BuyoutPrice(costWithVat, rate)))
  }

  /** The values written are the ones the calculator defines, and the buyout is within the cost. */
  lemma RecalculatedValues(a: AssetFields, today: Date)
    requires a.originalCost.Some? && a.originalCost.value >= 0.0
    requires CostWithVat(a.originalCost) != Some(0.0)
    ensures var r := Recalculated(a, today);
      var months := MonthsSincePurchase(a.purchaseDate, today);
      r.ageMonths == Some(months) &&
      r.deviceType == Some(DeviceClassOf(a.objectTypeName)) &&
      r.costWithVat == CostWithVat(a.originalCost) &&
      r.depreciationPercent == Some(DepreciationRate(months, DeviceClassOf(a.objectTypeName)) * 100.0) &&
      0.0 <= r.buyoutPrice.value <= r.costWithVat.value
  {
    var cwv := CostWithVat(a.originalCost).value;
    var rate := DepreciationRate(MonthsSincePurchase(a.purchaseDate, today), DeviceClassOf(a.objectTypeName));
    BuyoutWithinCost(cwv, rate);
  }

  /** A missing purchase date gives age 0 and the 10.2 % minimum rate. */
  lemma MissingPurchaseDate(a: AssetFields, today: Date)
    requires a.originalCost.Some? && a.purchaseDate.None?
    requires CostWithVat(a.originalCost) != Some(0.0)
    ensures Recalculated(a, today).ageMonths == Some(0)
    ensures Recalculated(a, today).depreciationPercent == Some(10.2)
    ensures Recalculated(a, today).buyoutPrice == Some(BuyoutPrice(CostWithVat(a.originalCost).value, MinimumRate))
  {
  }

  /** Running the calculation a second time changes nothing. */
  lemma RecalculatedIdempotent(a: AssetFields, today: Date)
    ensures Recalculated(Recalculated(a, today), today) == Recalculated(a, today)
  {
  }

  /** Recalculated for an asset with a non-zero VAT-inclusive cost, spelled out for the method below. */
  lemma RecalculatedWrites(a: AssetFields, today: Date, months: int, c: DeviceClass, costWithVat: real, rate: real)
    requires a.originalCost.Some?
    requires months == MonthsSincePurchase(a.purchaseDate, today) && c == DeviceClassOf(a.objectTypeName)
    requires CostWithVat(a.originalCost) == Some(costWithVat) && costWithVat != 0.0
    requires rate == DepreciationRate(months, c)
    ensures Recalculated(a, today) ==
              a.(ageMonths := Some(months), deviceType := Some(c), costWithVat := Some(costWithVat),
                 depreciationPercent := Some(rate * 100.0), buyoutPrice := Some(BuyoutPrice(costWithVat, rate)))
  {
  }

  /** Recalculated for an asset whose VAT-inclusive cost is zero, spelled out for the method below. */
  lemma RecalculatedKeeps(a: AssetFields, today: Date, months: int, c: DeviceClass)
    requires a.originalCost.Some?
    requires months == MonthsSincePurchase(a.purchaseDate, today) && c == DeviceClassOf(a.objectTypeName)
    requires CostWithVat(a.originalCost) == Some(0.0)
    ensures Recalculated(a, today) == a.(ageMonths := Some(months), deviceType := Some(c))
  {
  }

  /** The asset dictionary, updated in place by the calculator. */
  class Asset {
    var originalCost: Option<real>
    var purchaseDate: Option<Date>
    var objectTypeName: Option<string>
    var ageMonths: Option<int>
    var deviceType: Option<DeviceClass>
    var costWithVat: Option<real>
    var depreciationPercent: Option<real>
    var buyoutPrice: Option<real>

    /** An asset holding exactly the keys in `fields`. */
    constructor (fields: AssetFields)
      ensures Fields() == fields
    {
      originalCost := fields.originalCost;
      purchaseDate := fields.purchaseDate;
      objectTypeName := fields.objectTypeName;
      ageMonths := fields.ageMonths;
      deviceType := fields.deviceType;
      costWithVat := fields.costWithVat;
      depreciationPercent := fields.depreciationPercent;
      buyoutPrice := fields.buyoutPrice;
    }

    /** The current contents of the dictionary. */
    function Fields(): AssetFields
      reads this
    {
      AssetFields(originalCost, purchaseDate, objectTypeName, ageMonths,
                  deviceType, costWithVat, depreciationPercent, buyoutPrice)
    }
  }

  /**
   * calculate_buyout_price: writes the derived keys into `asset` one by one
   * and returns the same object.
   */
  method CalculateBuyoutPrice(asset: Asset, today: Date) returns (result: Asset)
    modifies asset
    ensures result == asset
    ensures asset.Fields() == Recalculated(old(asset.Fields()), today)
  {
    result := asset;
    if asset.originalCost.None? {
      return;
    }
    var months := MonthsSincePurchase(asset.purchaseDate, today);
    var c := DeviceClassOf(asset.objectTypeName);
    var costWithVat := CostWithVat(asset.originalCost);
    asset.ageMonths := Some(months);
    asset.deviceType := Some(c);
    if costWithVat.Some? && costWithVat.value != 0.0 {
      var rate := GetDepreciationRate(months, c);
      asset.costWithVat := costWithVat;
      asset.depreciationPercent := Some(rate * 100.0);
      asset.buyoutPrice := Some(BuyoutPrice(costWithVat.value, rate));
      RecalculatedWrites(old(asset.Fields()), today, months, c, costWithVat.value, rate);
    } else {
      RecalculatedKeeps(old(asset.Fields()), today, months, c);
    }
  }

  /** update_asset_calculations: the module-level entry point. */
  method UpdateAssetCalculations(asset: Asset, today: Date) returns (result: Asset)
    modifies asset
    ensures result == asset
    ensures asset.Fields() == Recalculated(old(asset.Fields()), today)
  {
    result := CalculateBuyoutPrice(asset, today);
  }
}
