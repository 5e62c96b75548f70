/** `tceaFromCashflow`: the annual total effective cost (TCEA) of a monthly
    client cash flow, as the effective annual rate of its monthly IRR. */
module Tcea {
  import opened Wrappers
  import Powers
  import Cashflows
  import Rates
  import Schedule

  /** The starting guess when the caller gives none. */
  const DefaultGuess: real := 0.01

  /** `tceaFromCashflow(cashflow, guess)`: `None` (the source's `null`) exactly
      for an empty flow. */
  function TceaFromCashflow(cashflow: seq<real>, guess: real): (t: Option<real>)
    ensures t.None? <==> |cashflow| == 0
  {
    if |cashflow| == 0 then None
    else Some(Rates.ToEffectiveAnnualFromMonthly(Cashflows.Irr(cashflow, guess)))
  }

  /** `tceaFromCashflow(cashflow)` with the default guess: a non-empty flow
      always has a TCEA, and converting it back to a monthly rate gives the
      flow's IRR. */
  function TceaDefault(cashflow: seq<real>): (t: Option<real>)
    ensures t.None? <==> |cashflow| == 0
    ensures t.Some? ==>
      && Rates.Convertible(Rates.TEA, t.value, Rates.DefaultMCap)
      && Rates.ToMonthlyRate(Rates.TEA, t.value, Rates.DefaultMCap) == Cashflows.Irr(cashflow, DefaultGuess)
      && 1.0 + t.value == Powers.Pow(1.0 + Cashflows.Irr(cashflow, DefaultGuess), 12)
  {
    if |cashflow| == 0 then None
    else
      TceaIsAnnualisedIrr(cashflow, DefaultGuess);
      TceaFromCashflow(cashflow, DefaultGuess)
  }

  /** The TCEA's monthly equivalent is the IRR of the flow: twelve months at
      the IRR grow one unit by one plus the TCEA. */
  lemma TceaIsAnnualisedIrr(cashflow: seq<real>, guess: real)
    requires |cashflow| > 0 && guess > -1.0
    ensures var t := TceaFromCashflow(cashflow, guess);
      && t.Some?
      && Rates.Convertible(Rates.TEA, t.value, Rates.DefaultMCap)
      && Rates.ToMonthlyRate(Rates.TEA, t.value, Rates.DefaultMCap) == Cashflows.Irr(cashflow, guess)
      && 1.0 + t.value == Powers.Pow(1.0 + Cashflows.Irr(cashflow, guess), 12)
  {
    Cashflows.IrrAboveMinusOne(cashflow, guess);
    Rates.MonthlyRoundTrip(Cashflows.Irr(cashflow, guess), Rates.DefaultMCap);
  }

  /** A flow whose Newton phase gave up without a sign change on [-0.9, 5]
      still gets a TCEA: the annualised guess, not `None`. */
  lemma NoSignChangeGivesAnnualisedGuess(cashflow: seq<real>, guess: real)
    requires |cashflow| > 0
    requires Cashflows.Newton(cashflow, guess, 0) == Cashflows.Stopped
    requires Cashflows.Npv(Cashflows.BracketLo, cashflow) * Cashflows.Npv(Cashflows.BracketHi, cashflow) > 0.0
    ensures TceaFromCashflow(cashflow, guess) == Some(Rates.ToEffectiveAnnualFromMonthly(guess))
  {
    Cashflows.IrrWithoutSignChange(cashflow, guess);
  }

  /** A flow that is never negative has no rate of return, yet its TCEA is the
      annualised guess. */
  lemma NonNegativeFlowGetsAnnualisedGuess(cashflow: seq<real>, guess: real)
    requires |cashflow| > 0 && cashflow[0] >= Cashflows.Tol && guess > -1.0
    requires forall t :: 0 <= t < |cashflow| ==> cashflow[t] >= 0.0
    ensures TceaFromCashflow(cashflow, guess) == Some(Rates.ToEffectiveAnnualFromMonthly(guess))
  {
    Cashflows.IrrOfNonNegativeFlows(cashflow, guess);
  }

  /** The plan's own `tcea` is `tceaFromCashflow` of its flow with the plan's
      guess. */
  lemma PlanTceaAgrees(inp: Schedule.SimInput)
    ensures var out := Schedule.GenerarPlan(inp);
      out.tcea == TceaFromCashflow(out.flujo, Schedule.PlanIrrGuess)
  {
  }
}
