/** The second copy of the rate conversions, kept by the application beside
    `Rates`; both must agree. */
module Tasa {
  import opened Powers
  import Rates

  /** The monthly rate equivalent to an effective annual rate. */
  ghost function TeaToMensual(tea: real): (im: real)
    requires HasRoot12(1.0 + tea)
    ensures im > -1.0
    ensures Pow(1.0 + im, 12) == 1.0 + tea
  {
    Root12(1.0 + tea) - 1.0
  }

  /** The monthly rate equivalent to a nominal annual rate capitalised `m`
      times a year. */
  ghost function TnaToMensual(tna: real, m: int): (im: real)
    requires m >= 1 && HasRoot12(Pow(1.0 + tna / m as real, m as nat))
    ensures im > -1.0
    ensures Pow(1.0 + im, 12) == Pow(1.0 + tna / m as real, m as nat)
  {
    var tea := Pow(1.0 + tna / m as real, m as nat) - 1.0;
    TeaToMensual(tea)
  }

  /** A zero effective annual rate is a zero monthly rate. */
  lemma TeaToMensualZero()
    ensures HasRoot12(1.0)
    ensures TeaToMensual(0.0) == 0.0
  {
    PowOne(12);
    Root12OfPow(1.0);
  }

  /** `TeaToMensual` is the TEA branch of `Rates.ToMonthlyRate`, for every `mCap`. */
  lemma TeaAgreesWithRates(tea: real, mCap: int)
    requires HasRoot12(1.0 + tea)
    ensures Rates.Convertible(Rates.TEA, tea, mCap)
    ensures TeaToMensual(tea) == Rates.ToMonthlyRate(Rates.TEA, tea, mCap)
  {
  }

  /** `TnaToMensual` is the TNA branch of `Rates.ToMonthlyRate`. */
  lemma TnaAgreesWithRates(tna: real, m: int)
    requires m >= 1 && HasRoot12(Pow(1.0 + tna / m as real, m as nat))
    ensures Rates.Convertible(Rates.TNA, tna, m)
    ensures TnaToMensual(tna, m) == Rates.ToMonthlyRate(Rates.TNA, tna, m)
  {
  }
}
