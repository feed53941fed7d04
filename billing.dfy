/** The bill that `main` in app.py assembles once the form is submitted:
    fixed cost, usage cost and power-tariff cost, then VAT, and the tariff
    list built from the form's inputs. */
module Billing {
  import opened Readings
  import opened PowerTariffs
  import opened PowerTariffProperties
  import opened Vat

  /** The prices entered in the form. */
  datatype BillingParameters = BillingParameters(
    fixedCost: real,
    usageRate: real,
    vatRate: real,
    pricesIncludeVat: bool,
    tariffs: seq<Tariff>)

  /** Every figure of the cost breakdown the page displays. */
  datatype CostBreakdown = CostBreakdown(
    totalUsage: real,
    usageCost: real,
    tariffCost: real,
    subtotal: real,
    fixedNet: real,
    usageNet: real,
    tariffNet: real,
    subtotalNet: real,
    totalVat: real,
    totalCost: real)

  /** `list(range(lo, hi))`: the integers from `lo` up to, not including, `hi`. */
  function Range(lo: int, hi: int): (r: seq<int>)
    ensures |r| == if lo < hi then hi - lo else 0
    ensures forall i :: 0 <= i < |r| ==> r[i] == lo + i
    ensures forall h :: h in r <==> lo <= h < hi
    decreases hi - lo
  {
    if lo >= hi then [] else [lo] + Range(lo + 1, hi)
  }

  /** The hours list of a tariff: every hour of the slider's range, ends
      included, when the hour restriction is ticked, and no restriction
      (the empty list) otherwise. */
  function HourRestriction(start: int, end: int, apply: bool): (hours: seq<int>)
    ensures forall h :: h in hours <==> apply && start <= h <= end
    ensures apply && start <= end ==> |hours| == end - start + 1
  {
    if apply then Range(start, end + 1) else []
  }

  /** The tariff the form builds from its inputs. */
  function FormTariff(enabled: bool, topN: nat, rate: real, months: seq<int>,
                      start: int, end: int, apply: bool): Tariff
  {
    Tariff(enabled, topN, rate, months, HourRestriction(start, end, apply))
  }

  /** A tariff built by the form applies to a reading exactly when the
      reading's month is selected (or none is) and, when the hour
      restriction is ticked, its hour lies within the slider's range. */
  lemma FormTariffApplies(enabled: bool, topN: nat, rate: real, months: seq<int>,
                          start: int, end: int, apply: bool, r: Reading)
    requires start <= end
    ensures Applies(FormTariff(enabled, topN, rate, months, start, end, apply), r)
      <==> ((months == [] || r.at.date.month in months) && (!apply || start <= r.at.hour <= end))
  {
    var hours := HourRestriction(start, end, apply);
    if apply {
      assert start in hours;
    }
  }

  /** The bill, given the usage total and the power-tariff cost. VAT is
      split off each component when prices include VAT and added to the
      subtotal otherwise; either way the VAT is the rate applied to the net
      subtotal, and net plus VAT is the total. */
  function Bill(totalUsage: real, tariffCost: real, p: BillingParameters): (b: CostBreakdown)
    requires ValidVatRate(p.vatRate)
    ensures b.totalUsage == totalUsage && b.tariffCost == tariffCost
    ensures b.usageCost == totalUsage * p.usageRate
    ensures b.subtotal == p.fixedCost + b.usageCost + b.tariffCost
    ensures b.subtotalNet == b.fixedNet + b.usageNet + b.tariffNet
    ensures b.totalVat == VatOn(b.subtotalNet, p.vatRate)
    ensures b.subtotalNet + b.totalVat == b.totalCost
    ensures p.pricesIncludeVat ==>
      && b.fixedNet == CalculateVat(p.fixedCost, p.vatRate, true).net
      && b.usageNet == CalculateVat(b.usageCost, p.vatRate, true).net
      && b.tariffNet == CalculateVat(b.tariffCost, p.vatRate, true).net
      && b.totalCost == b.subtotal
      && b.subtotalNet == CalculateVat(b.subtotal, p.vatRate, true).net
    ensures !p.pricesIncludeVat ==>
      && b.fixedNet == p.fixedCost && b.usageNet == b.usageCost && b.tariffNet == b.tariffCost
      && b.totalCost == b.subtotal * Multiplier(p.vatRate)
  {
    var usageCost := totalUsage * p.usageRate;
    var subtotal := p.fixedCost + usageCost + tariffCost;
    if p.pricesIncludeVat then
      var fixed := CalculateVat(p.fixedCost, p.vatRate, true);
      var usage := CalculateVat(usageCost, p.vatRate, true);
      var tariff := CalculateVat(tariffCost, p.vatRate, true);
      InclusiveSplitAdditive(p.fixedCost, usageCost, p.vatRate);
      InclusiveSplitAdditive(p.fixedCost + usageCost, tariffCost, p.vatRate);
      VatOnAdditive(fixed.net, usage.net, p.vatRate);
      VatOnAdditive(fixed.net + usage.net, tariff.net, p.vatRate);
      CostBreakdown(totalUsage, usageCost, tariffCost, subtotal,
        fixed.net, usage.net, tariff.net,
        fixed.net + usage.net + tariff.net,
        fixed.vat + usage.vat + tariff.vat,
        subtotal)
    else
      var whole := CalculateVat(subtotal, p.vatRate, false);
      ExclusiveGross(subtotal, p.vatRate);
      CostBreakdown(totalUsage, usageCost, tariffCost, subtotal,
        p.fixedCost, usageCost, tariffCost,
        whole.net, whole.vat, whole.net + whole.vat)
  }

  /** The bill for `readings`. */
  function Breakdown(readings: seq<Reading>, p: BillingParameters): CostBreakdown
    requires ValidVatRate(p.vatRate)
  {
    Bill(TotalUsage(readings), TotalTariffCost(readings, p.tariffs), p)
  }

  /** With non-negative prices, usage and power-tariff cost, every figure of
      the bill is non-negative, the net subtotal never exceeds the subtotal
      and the subtotal never exceeds the total. */
  lemma BillNonNegative(totalUsage: real, tariffCost: real, p: BillingParameters)
    requires ValidVatRate(p.vatRate)
    requires p.fixedCost >= 0.0 && p.usageRate >= 0.0
    requires totalUsage >= 0.0 && tariffCost >= 0.0
    ensures var b := Bill(totalUsage, tariffCost, p);
      && b.usageCost >= 0.0
      && b.fixedNet >= 0.0 && b.usageNet >= 0.0 && b.tariffNet >= 0.0 && b.totalVat >= 0.0
      && 0.0 <= b.subtotalNet <= b.subtotal <= b.totalCost
  {
    var b := Bill(totalUsage, tariffCost, p);
    assert b.usageCost >= 0.0;
    var whole := CalculateVat(b.subtotal, p.vatRate, p.pricesIncludeVat);
    if p.pricesIncludeVat {
      assert b.subtotalNet == whole.net;
    } else {
      assert b.totalVat == whole.vat;
    }
  }

  /** The form's lower bounds (no negative price or rate, and the validation
      step's rejection of negative usage) make the whole bill non-negative. */
  lemma BreakdownNonNegative(readings: seq<Reading>, p: BillingParameters)
    requires ValidVatRate(p.vatRate)
    requires p.fixedCost >= 0.0 && p.usageRate >= 0.0
    requires forall i :: 0 <= i < |p.tariffs| ==> p.tariffs[i].rate >= 0.0
    requires NonNegative(readings)
    ensures var b := Breakdown(readings, p);
      && b.tariffCost >= 0.0 && b.totalVat >= 0.0
      && 0.0 <= b.subtotalNet <= b.subtotal <= b.totalCost
  {
    TotalTariffCostNonNegative(readings, p.tariffs);
    BillNonNegative(TotalUsage(readings), TotalTariffCost(readings, p.tariffs), p);
  }

  /** The calculation block of the page: the usage total, the power tariffs
      and their peak hours, and the cost breakdown with VAT. */
  method CalculateCosts(readings: seq<Reading>, p: BillingParameters)
    returns (b: CostBreakdown, peakHours: seq<PeakHour>)
    requires ValidVatRate(p.vatRate)
    ensures b == Breakdown(readings, p)
    ensures peakHours == AllPeakHours(readings, p.tariffs)
  {
    var totalUsage := TotalUsage(readings);
    var tariffCost;
    tariffCost, peakHours := CalculatePowerTariffs(readings, p.tariffs);
    b := Bill(totalUsage, tariffCost, p);
  }
}
