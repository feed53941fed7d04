/** VAT: `calculate_vat` in app.py splits an amount into a net part and a
    VAT part, either extracting the VAT from a VAT-inclusive amount or adding
    it on top of a VAT-exclusive one. */
module Vat {

  datatype VatSplit = VatSplit(net: real, vat: real)

  /** The VAT percentage the form accepts. */
  predicate ValidVatRate(vatRate: real)
  {
    0.0 <= vatRate <= 100.0
  }

  /** The factor that turns a net amount into a gross one. */
  function Multiplier(vatRate: real): (m: real)
    ensures vatRate >= 0.0 ==> m >= 1.0
  {
    1.0 + vatRate / 100.0
  }

  /** The VAT on a net amount. */
  function VatOn(net: real, vatRate: real): (vat: real)
    ensures net >= 0.0 && vatRate >= 0.0 ==> vat >= 0.0
  {
    net * (vatRate / 100.0)
  }

  /** VAT is additive over net amounts. */
  lemma VatOnAdditive(a: real, b: real, vatRate: real)
    ensures VatOn(a + b, vatRate) == VatOn(a, vatRate) + VatOn(b, vatRate)
  {
  }

  /** Splits `amount` into net and VAT. In both modes the VAT is the rate
      applied to the net part; an inclusive amount is the sum of the two
      parts, an exclusive amount is the net part itself. */
  function CalculateVat(amount: real, vatRate: real, pricesIncludeVat: bool): (s: VatSplit)
    requires ValidVatRate(vatRate)
    ensures s.vat == VatOn(s.net, vatRate)
    ensures pricesIncludeVat ==> s.net + s.vat == amount
    ensures !pricesIncludeVat ==> s.net == amount
    ensures amount >= 0.0 ==> 0.0 <= s.net <= amount && s.vat >= 0.0
    ensures amount == 0.0 ==> s == VatSplit(0.0, 0.0)
  {
    if pricesIncludeVat then
      var net := amount / Multiplier(vatRate);
      VatSplit(net, amount - net)
    else
      VatSplit(amount, amount * (vatRate / 100.0))
  }

  /** An inclusive amount has exactly one split whose VAT is the rate applied
      to its net part. */
  lemma InclusiveSplitUnique(amount: real, vatRate: real, net: real, vat: real)
    requires ValidVatRate(vatRate)
    requires vat == VatOn(net, vatRate) && net + vat == amount
    ensures CalculateVat(amount, vatRate, true) == VatSplit(net, vat)
  {
    var s := CalculateVat(amount, vatRate, true);
    assert net * Multiplier(vatRate) == amount;
    assert s.net * Multiplier(vatRate) == amount;
  }

  /** Adding VAT to a net amount and extracting it again gives back the same
      net amount and VAT. */
  lemma VatRoundTrip(net: real, vatRate: real)
    requires ValidVatRate(vatRate)
    ensures var added := CalculateVat(net, vatRate, false);
      CalculateVat(added.net + added.vat, vatRate, true) == added
  {
    var added := CalculateVat(net, vatRate, false);
    InclusiveSplitUnique(added.net + added.vat, vatRate, added.net, added.vat);
  }

  /** The gross amount of an exclusive split is the amount times the multiplier. */
  lemma ExclusiveGross(amount: real, vatRate: real)
    requires ValidVatRate(vatRate)
    ensures var s := CalculateVat(amount, vatRate, false);
      s.net + s.vat == amount * Multiplier(vatRate)
  {
  }

  /** Extracting VAT from a sum is the same as extracting it from each term. */
  lemma InclusiveSplitAdditive(a: real, b: real, vatRate: real)
    requires ValidVatRate(vatRate)
    ensures var sa := CalculateVat(a, vatRate, true);
      var sb := CalculateVat(b, vatRate, true);
      CalculateVat(a + b, vatRate, true) == VatSplit(sa.net + sb.net, sa.vat + sb.vat)
  {
    var sa := CalculateVat(a, vatRate, true);
    var sb := CalculateVat(b, vatRate, true);
    VatOnAdditive(sa.net, sb.net, vatRate);
    InclusiveSplitUnique(a + b, vatRate, sa.net + sb.net, sa.vat + sb.vat);
  }
}
