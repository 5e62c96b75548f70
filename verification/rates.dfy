/** Conversion between the annual rate the client quotes (TEA, an effective
    annual rate, or TNA, a nominal annual rate with `mCap` capitalisations a
    year) and the effective monthly rate the engine works with. */
module Rates {
  import opened Powers

  datatype TipoTasa = TEA | TNA

  /** The capitalisation frequency used when the caller gives none. */
  const DefaultMCap: int := 12

  /** The growth factor of one unit over a year under the quoted rate. */
  function AnnualFactor(tipo: TipoTasa, tasa: real, mCap: int): real
    requires tipo == TNA ==> mCap >= 1
  {
    match tipo
    case TEA => 1.0 + tasa
    case TNA => Pow(1.0 + tasa / mCap as real, mCap as nat)
  }

  /** The quoted rate has a monthly equivalent: a TNA needs a positive number of
      capitalisations, and the annual factor needs a positive twelfth root. */
  ghost predicate Convertible(tipo: TipoTasa, tasa: real, mCap: int) {
    && (tipo == TNA ==> mCap >= 1)
    && HasRoot12(AnnualFactor(tipo, tasa, mCap))
  }

  /** The monthly rate equivalent to the quoted annual rate: twelve months at
      the result grow one unit exactly as one year at the quoted rate does. */
  ghost function ToMonthlyRate(tipo: TipoTasa, tasa: real, mCap: int): (im: real)
    requires Convertible(tipo, tasa, mCap)
    ensures im > -1.0
    ensures Pow(1.0 + im, 12) == AnnualFactor(tipo, tasa, mCap)
  {
    if tipo == TEA then
      Root12(1.0 + tasa) - 1.0
    else
      var iea := Pow(1.0 + tasa / mCap as real, mCap as nat) - 1.0;
      Root12(1.0 + iea) - 1.0
  }

  /** The effective annual rate of a monthly rate. */
  function ToEffectiveAnnualFromMonthly(im: real): (ea: real)
    ensures im == 0.0 ==> ea == 0.0
    ensures im > -1.0 ==> ea > -1.0
    ensures im >= 0.0 ==> ea >= im
  {
    TwelfthPowerBounds(1.0 + im);
    Pow(1.0 + im, 12) - 1.0
  }

  lemma TwelfthPowerBounds(x: real)
    ensures x == 1.0 ==> Pow(x, 12) == 1.0
    ensures x > 0.0 ==> Pow(x, 12) > 0.0
    ensures x >= 1.0 ==> Pow(x, 12) >= x
  {
    PowOne(12);
    if x >= 1.0 {
      PowAtLeastOne(x, 11);
      assert Pow(x, 12) == x * Pow(x, 11);
    }
  }

  /** Annualising the monthly equivalent of a TEA gives the TEA back. */
  lemma TeaRoundTrip(tasa: real, mCap: int)
    requires HasRoot12(1.0 + tasa)
    ensures Convertible(TEA, tasa, mCap)
    ensures ToEffectiveAnnualFromMonthly(ToMonthlyRate(TEA, tasa, mCap)) == tasa
  {
  }

  /** The TEA branch is the inverse of annualising: the monthly equivalent of
      the annualised rate of `im` is `im` again, whatever `mCap` says. */
  lemma MonthlyRoundTrip(im: real, mCap: int)
    requires im > -1.0
    ensures Convertible(TEA, ToEffectiveAnnualFromMonthly(im), mCap)
    ensures ToMonthlyRate(TEA, ToEffectiveAnnualFromMonthly(im), mCap) == im
  {
    Root12OfPow(1.0 + im);
  }

  /** The TNA branch is the TEA branch applied to the equivalent effective
      annual rate `(1 + tasa/mCap)^mCap - 1`. */
  lemma TnaIsTeaOfEquivalentRate(tasa: real, mCap: int)
    requires Convertible(TNA, tasa, mCap)
    ensures Convertible(TEA, AnnualFactor(TNA, tasa, mCap) - 1.0, mCap)
    ensures ToMonthlyRate(TNA, tasa, mCap) == ToMonthlyRate(TEA, AnnualFactor(TNA, tasa, mCap) - 1.0, mCap)
  {
  }

  /** Annualising the monthly equivalent of a TNA gives the equivalent
      effective annual rate `(1 + tasa/mCap)^mCap - 1`. */
  lemma AnnualisedTna(tasa: real, mCap: int)
    requires Convertible(TNA, tasa, mCap)
    ensures ToEffectiveAnnualFromMonthly(ToMonthlyRate(TNA, tasa, mCap))
         == Pow(1.0 + tasa / mCap as real, mCap as nat) - 1.0
  {
  }

  /** With the default twelve capitalisations a TNA is simply divided by 12. */
  lemma TnaDefaultIsProportional(tasa: real)
    requires 1.0 + tasa / 12.0 > 0.0
    ensures Convertible(TNA, tasa, DefaultMCap)
    ensures ToMonthlyRate(TNA, tasa, DefaultMCap) == tasa / 12.0
  {
    Root12OfPow(1.0 + tasa / 12.0);
  }

  /** A non-negative quoted rate gives a non-negative monthly rate. */
  lemma MonthlyRateNonNegative(tipo: TipoTasa, tasa: real, mCap: int)
    requires Convertible(tipo, tasa, mCap) && tasa >= 0.0
    ensures ToMonthlyRate(tipo, tasa, mCap) >= 0.0
  {
    if tipo == TNA {
      PowAtLeastOne(1.0 + tasa / mCap as real, mCap as nat);
    }
    Root12AtLeastOne(AnnualFactor(tipo, tasa, mCap));
  }
}
