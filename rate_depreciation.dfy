/**
 * Straight-line depreciation by annual rate and whole years of use, the formula the CSV
 * report, the PDF report and the asset store each compute from their own copy of the
 * rate table. Elapsed time is given in whole days instead of being read from the clock.
 */
module RateDepreciation {
  import opened Numbers
  import opened AssetModel

  /** `Math.floor(elapsed / 365.25 days)`, written with integers. */
  function YearsOfUse(elapsedDays: int): (years: int)
    ensures (years as real) <= (elapsedDays as real) / 365.25 < ((years + 1) as real)
  {
    var y := (4 * elapsedDays) / 1461;
    assert 1461 * y <= 4 * elapsedDays < 1461 * (y + 1);
    y
  }

  lemma {:induction false} YearsOfUseMonotone(d1: int, d2: int)
    requires d1 <= d2
    ensures YearsOfUse(d1) <= YearsOfUse(d2)
  {
    var y1, y2 := YearsOfUse(d1), YearsOfUse(d2);
    assert 1461 * y1 <= 4 * d1 <= 4 * d2 < 1461 * (y2 + 1);
  }

  /** `rates[type] || 0.10`: the table entry, or 10% when the type is missing (or maps to 0). */
  function RateFor(rates: map<string, real>, assetType: string): (r: real)
    ensures assetType in rates && rates[assetType] != 0.0 ==> r == rates[assetType]
    ensures assetType !in rates || rates[assetType] == 0.0 ==> r == 0.10
    ensures (forall t | t in rates :: 0.0 < rates[t] < 1.0) ==> 0.0 < r < 1.0
  {
    if assetType in rates && rates[assetType] != 0.0 then rates[assetType] else 0.10
  }

  /** With the model table, a listed type gets its own rate, anything else 10%, and every rate is a proper fraction. */
  lemma RateForModelTable(assetType: string)
    ensures IsAssetType(assetType) ==> RateFor(DEPRECIATION_RATES, assetType) == DEPRECIATION_RATES[assetType]
    ensures !IsAssetType(assetType) ==> RateFor(DEPRECIATION_RATES, assetType) == 0.10
    ensures 0.0 < RateFor(DEPRECIATION_RATES, assetType) < 1.0
  {
    RatesCoverAssetTypes();
    RatesAreFractions();
    assert assetType in DEPRECIATION_RATES <==> IsAssetType(assetType);
  }


  /** What the report services' `calculateDepreciation` returns. */
  datatype RateDepreciation = RateDepreciation(
    rate: real,
    annual: real,
    accumulated: real,
    currentValue: real,
    yearsOfUse: int)

  function FloorDepreciation(rates: map<string, real>, asset: Asset, elapsedDays: int): (d: RateDepreciation)
    ensures d.rate == RateFor(rates, asset.assetType)
    ensures d.yearsOfUse == YearsOfUse(elapsedDays)
    ensures d.annual == OriginalValue(asset) * d.rate
    ensures d.accumulated <= OriginalValue(asset) && d.accumulated <= d.annual * (d.yearsOfUse as real)
    ensures d.accumulated == OriginalValue(asset) || d.accumulated == d.annual * (d.yearsOfUse as real)
    ensures d.currentValue >= 0.0
    ensures d.currentValue >= OriginalValue(asset) - d.accumulated
    ensures d.currentValue == 0.0 || d.currentValue == OriginalValue(asset) - d.accumulated
  {
    var years := YearsOfUse(elapsedDays);
    var rate := RateFor(rates, asset.assetType);
    var original := OriginalValue(asset);
    var annual := original * rate;
    var accumulated := Min(annual * (years as real), original);
    RateDepreciation(rate, annual, accumulated, Max(original - accumulated, 0.0), years)
  }

  /**
   * With the model's table: the type's rate (10% for a type outside the union) times whole
   * years of use, capped at the original value and split from the current value.
   */
  function TableDepreciation(asset: Asset, elapsedDays: int): (d: RateDepreciation)
    ensures d == FloorDepreciation(DEPRECIATION_RATES, asset, elapsedDays)
    ensures d.rate == if IsAssetType(asset.assetType) then DEPRECIATION_RATES[asset.assetType] else 0.10
    ensures d.yearsOfUse == YearsOfUse(elapsedDays)
    ensures elapsedDays >= 0 && OriginalValue(asset) >= 0.0 ==>
      0.0 <= d.accumulated <= OriginalValue(asset) && d.currentValue + d.accumulated == OriginalValue(asset)
  {
    RateForModelTable(asset.assetType);
    var d := FloorDepreciation(DEPRECIATION_RATES, asset, elapsedDays);
    if elapsedDays >= 0 && OriginalValue(asset) >= 0.0 then
      FloorDepreciationBounds(DEPRECIATION_RATES, asset, elapsedDays);
      d
    else
      d
  }

  /**
   * For an asset in use (elapsed time not negative, value and rate not negative), the accumulated
   * depreciation stays within the original value and the two parts add up to it.
   */
  lemma FloorDepreciationBounds(rates: map<string, real>, asset: Asset, elapsedDays: int)
    requires elapsedDays >= 0 && OriginalValue(asset) >= 0.0
    requires RateFor(rates, asset.assetType) >= 0.0
    ensures var d := FloorDepreciation(rates, asset, elapsedDays);
      0.0 <= d.accumulated <= OriginalValue(asset)
      && 0.0 <= d.currentValue <= OriginalValue(asset)
      && d.currentValue + d.accumulated == OriginalValue(asset)
  {
    var d := FloorDepreciation(rates, asset, elapsedDays);
    assert d.yearsOfUse >= 0;
    assert d.annual >= 0.0;
    assert d.annual * (d.yearsOfUse as real) >= 0.0;
  }

  /** Later evaluation never lowers the accumulated depreciation. */
  lemma FloorDepreciationMonotone(rates: map<string, real>, asset: Asset, d1: int, d2: int)
    requires d1 <= d2 && OriginalValue(asset) >= 0.0
    requires RateFor(rates, asset.assetType) >= 0.0
    ensures FloorDepreciation(rates, asset, d1).accumulated <= FloorDepreciation(rates, asset, d2).accumulated
  {
    var o, rate := OriginalValue(asset), RateFor(rates, asset.assetType);
    FloorAccumulated(rates, asset, d1);
    FloorAccumulated(rates, asset, d2);
    YearsOfUseMonotone(d1, d2);
    MulNonNegative(o, rate);
    CappedMonotone(o * rate, YearsOfUse(d1) as real, YearsOfUse(d2) as real, o);
  }

  /** The accumulated amount is the capped product of the annual amount and the whole years. */
  lemma FloorAccumulated(rates: map<string, real>, asset: Asset, elapsedDays: int)
    ensures FloorDepreciation(rates, asset, elapsedDays).accumulated
      == Min(OriginalValue(asset) * RateFor(rates, asset.assetType) * (YearsOfUse(elapsedDays) as real), OriginalValue(asset))
  {
  }

  /** A non-negative amount per year, capped, does not shrink over more years. */
  lemma CappedMonotone(annual: real, y1: real, y2: real, cap: real)
    requires annual >= 0.0 && y1 <= y2
    ensures Min(annual * y1, cap) <= Min(annual * y2, cap)
  {
    ProductMonotone(annual, y1, y2);
  }

  /** Once `rate * years` reaches 1 the asset is fully depreciated and worth nothing. */
  lemma FloorDepreciationExhausted(rates: map<string, real>, asset: Asset, elapsedDays: int)
    requires OriginalValue(asset) >= 0.0
    requires RateFor(rates, asset.assetType) * (YearsOfUse(elapsedDays) as real) >= 1.0
    ensures FloorDepreciation(rates, asset, elapsedDays).accumulated == OriginalValue(asset)
    ensures FloorDepreciation(rates, asset, elapsedDays).currentValue == 0.0
  {
    var o, r, y := OriginalValue(asset), RateFor(rates, asset.assetType), YearsOfUse(elapsedDays) as real;
    assert (o * r) * y == o * (r * y);
    MulNonNegative(o, r * y - 1.0);
    assert o * (r * y) - o * 1.0 == o * (r * y - 1.0);
  }

  /** A full calendar year of 365 days is still zero years of use; the first year completes on day 366. */
  lemma FirstYearCompletesOnDay366()
    ensures YearsOfUse(365) == 0 && YearsOfUse(366) == 1
  {
  }

  /** The depreciation report's share column, `accumulated / original * 100`. */
  function AccumulatedPercent(asset: Asset, d: RateDepreciation): (p: Num)
    ensures OriginalValue(asset) != 0.0 ==> p == Finite(d.accumulated / OriginalValue(asset) * 100.0)
    ensures OriginalValue(asset) == 0.0 ==> !p.Finite?
  {
    Percent(d.accumulated, OriginalValue(asset))
  }

  /** For an asset in use with a positive value, the share is a finite percentage in [0, 100]. */
  lemma AccumulatedPercentBounds(rates: map<string, real>, asset: Asset, elapsedDays: int)
    requires elapsedDays >= 0 && OriginalValue(asset) > 0.0
    requires RateFor(rates, asset.assetType) >= 0.0
    ensures var p := AccumulatedPercent(asset, FloorDepreciation(rates, asset, elapsedDays));
      p.Finite? && 0.0 <= p.value <= 100.0
  {
    var o := OriginalValue(asset);
    var d := FloorDepreciation(rates, asset, elapsedDays);
    FloorDepreciationBounds(rates, asset, elapsedDays);
    QuotientUnit(d.accumulated, o);
  }

  /** The monthly column, a twelfth of the annual depreciation. */
  function Monthly(d: RateDepreciation): (m: real)
    ensures m * 12.0 == d.annual
  {
    d.annual / 12.0
  }
}
