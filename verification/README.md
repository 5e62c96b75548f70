# Loan-amortisation engine, in Dafny

This project models the finance core of a mortgage simulator (`src/lib/finance`) over exact
`real` arithmetic and proves what it promises. The core covers these operations:

- `generarPlan` builds the payment schedule. It runs a number of grace months (`sin`, `parcial` or `total`)
  and then the French amortisation with a constant installment `cuotaFrancesa`. Each month carries
  the declining-balance life insurance `calcSeguro` and the ITF tax. From the rows it derives the
  client cash flow `flujo`, the column totals, the monthly IRR, the TCEA and the NPV at the loan rate.
- `npv` is the present value of a monthly flow. `irr` finds its internal rate: Newton from a guess,
  then bisection on [-0.9, 5].
- The rate conversions cover TEA or TNA to a monthly rate, and a monthly rate to an effective
  annual rate. `rates.ts` has them, and `tasa.ts` holds a second copy.
- `simular` computes the financed principal from price, down payment and bonuses, converts the
  quoted rate, and calls the engine.
- `tceaFromCashflow` annualises the IRR of a flow.

The modules follow the source files:

| module | models |
|---|---|
| `Powers` | `Math.pow` with an integer exponent as `Pow`, and the twelfth root as `Root12` |
| `Rates`, `Tasa` | `rates.ts` and `tasa.ts` |
| `Cashflows` | `cashflows.ts` |
| `Schedule` | `schedule.ts` |
| `ScheduleLemmas`, `Payoff` | what the schedule promises |
| `Sim` | `sim.ts` |
| `Tcea` | `tcea.ts` |

`Schedule` models `generarPlan` as two stage functions:

- `GraceStage` runs the grace loop.
- `AmortStage` runs the French loop.

Each stage extends the rows, the flows and the running balance exactly as the loop bodies do. The same
inputs give the same branches, with the same clamp of a negative amortisation to zero and the same
`mes` numbering. `irr` is modelled twice:

- The pure functions `Newton`, `Bisect` and `Irr` define it.
- The methods `NewtonLoop`, `BisectLoop` and `ComputeIrr` run the loops. Their contracts prove that they
  compute `Irr` within 200 + 200 iterations.

In seven places the code and its comments disagree. The model follows the code:

- `Pfinanciado` is the principal that was passed in (schedule.ts line 169), not "the balance after
  grace" as the field comment at line 38 says. Under `total` grace the two differ
  (`ScheduleLemmas.PfinanciadoIsPrincipal`).
- `irr` returns `guess` when there is no sign change on [-0.9, 5] (cashflows.ts line 27). It signals
  no failure, so `generarPlan` always gets a finite `tirMensual`.
- `tceaFromCashflow` is documented to return `null` when there is no IRR (tcea.ts line 11). In fact
  it returns the annualised guess: a flow that is never negative gets a TCEA
  (`Tcea.NonNegativeFlowGetsAnnualisedGuess`). It returns `null` only for an empty flow.
- `vanMensual` is typed as a number, but at `iMensual = -1` with at least one payment the source's
  value is not finite. There the model gives `None`.
- The `Row` field comment at schedule.ts line 30 says `cuotaTotal` is `cuota + seguro + itf`. Every
  grace row has `cuota = 0`, yet a `parcial` row's `cuotaTotal` also holds the interest (lines 72
  and 77). A `total` row that does not collect insurance has `cuotaTotal = 0` even when its premium
  is not 0 (lines 83, 95 and 97); its tax is 0 then.
- The comment at schedule.ts line 102 says `sin` grace should produce no grace rows. Lines 103-113
  still push one all-zero row and one zero flow per grace month (`ScheduleLemmas.SinGraceRows`).
- The `flujo` comment at schedule.ts line 42 promises a positive `t0` and negative payments. The
  payments are only non-positive: `sin` rows and `total` rows that collect nothing have flow 0. `t0` is
  positive only when `costosIniciales < principal` (`Payoff.PaymentFlowsNonPositive`).

## Model

| member | source | states |
|---|---|---|
| Powers.Root12OfPow | src/lib/finance/rates.ts:5 | every positive `y^12` has a twelfth root, and it is `y`: the root undoes the twelfth power |
| Rates.ToMonthlyRate | src/lib/finance/rates.ts:4-9 | the monthly rate exceeds -1, and twelve months at it grow one unit exactly as one year at the quoted TEA, or at the TNA capitalised `mCap` times, does |
| Rates.ToEffectiveAnnualFromMonthly | src/lib/finance/rates.ts:11-13 | annualising gives 0 at 0, stays above -1 for rates above -1, and is at least the monthly rate when that is non-negative |
| Rates.TeaRoundTrip | src/lib/finance/rates.ts:5-13 | annualising the monthly equivalent of a TEA gives the TEA back, whatever `mCap` is |
| Rates.MonthlyRoundTrip | src/lib/finance/rates.ts:5-13 | the TEA branch inverts annualising: the monthly equivalent of `(1+im)^12 - 1` is `im` for every `im > -1` |
| Rates.TnaIsTeaOfEquivalentRate | src/lib/finance/rates.ts:7-8 | the TNA branch is the TEA branch applied to `(1 + t/m)^m - 1` |
| Rates.AnnualisedTna | src/lib/finance/rates.ts:7-13 | annualising a TNA-derived monthly rate yields `(1 + t/m)^m - 1` |
| Rates.TnaDefaultIsProportional | src/lib/finance/rates.ts:4-8 | with the default twelve capitalisations and `1 + t/12 > 0`, the monthly rate is exactly `t/12` |
| Rates.MonthlyRateNonNegative | src/lib/finance/rates.ts:4-8 | a non-negative quoted rate gives a non-negative monthly rate |
| Tasa.TeaToMensual | src/lib/finance/tasa.ts:1-3 | the result exceeds -1, and its twelfth compounding is `1 + tea` |
| Tasa.TnaToMensual | src/lib/finance/tasa.ts:4-7 | the result exceeds -1, and its twelfth compounding is `(1 + tna/m)^m` |
| Tasa.TeaToMensualZero | src/lib/finance/tasa.ts:1-3 | a zero annual rate is a zero monthly rate |
| Tasa.TeaAgreesWithRates | src/lib/finance/tasa.ts:1-3 | `teaToMensual` equals the TEA branch of `toMonthlyRate` for every `mCap` |
| Tasa.TnaAgreesWithRates | src/lib/finance/tasa.ts:4-7 | `tnaToMensual(t, m)` equals `toMonthlyRate("TNA", t, m)` for every `m >= 1` |
| Cashflows.NpvIsDiscountedSum | src/lib/finance/cashflows.ts:1-3 | the left fold of `npv` equals the sum of each flow `t` discounted by `(1+rate)^t`, defined independently |
| Cashflows.NpvAppend | src/lib/finance/cashflows.ts:2 | appending a flow `x` adds `x/(1+r)^n`, where `n` is its position |
| Cashflows.NpvFirstFlow | src/lib/finance/cashflows.ts:1-3 | the first flow is undiscounted, and the rest is discounted one more month |
| Cashflows.NpvAtZeroRate | src/lib/finance/cashflows.ts:1-3 | at rate 0 the present value is the plain sum of the flows |
| Cashflows.NpvOfNonNegativeFlows | src/lib/finance/cashflows.ts:1-3 | at every rate above -1, flows that are never negative have a present value of at least the first flow |
| Cashflows.NewtonStep | src/lib/finance/cashflows.ts:18-21 | a Newton step the loop keeps lies in (-0.9999, 10] |
| Cashflows.IrrReturnsAcceptedIterate | src/lib/finance/cashflows.ts:14-17 | if the Newton iterate `k < 200` has a present value within 1e-8, `irr` returns it |
| Cashflows.NewtonStopsEarly | src/lib/finance/cashflows.ts:15-22 | Newton gives up and falls through to bisection when a reached iterate has a zero derivative, steps to a rate at or below -0.9999 or above 10, or when all 200 iterations ran |
| Cashflows.NewtonConvergedAccepts | src/lib/finance/cashflows.ts:17 | a converged Newton phase returns an iterate whose present value is within the tolerance |
| Cashflows.IrrWithoutSignChange | src/lib/finance/cashflows.ts:25-27 | when Newton gave up and `f(-0.9)·f(5) > 0`, `irr` returns `guess` unchanged |
| Cashflows.BisectKeepsBracket | src/lib/finance/cashflows.ts:28-34 | bisection keeps -0.9 <= lo < hi <= 5, `flo = f(lo)`, `fhi = f(hi)` and `flo·fhi <= 0`, and halves `hi - lo` each iteration; it ends at a midpoint with a small value or with the bracket halved 200 times |
| Cashflows.IrrByBisection | src/lib/finance/cashflows.ts:24-34 | a rate from the bisection phase lies strictly inside (-0.9, 5): either its present value is within 1e-8, or it is the midpoint of a sign-change bracket of width 5.9/2^200 |
| Cashflows.IrrAboveMinusOne | src/lib/finance/cashflows.ts:6-34 | from a guess above -1, `irr` returns a rate above -1 |
| Cashflows.IrrOfNonNegativeFlows | src/lib/finance/cashflows.ts:6-27 | flows that are never negative, with a first flow of at least 1e-8, have no rate; from a guess above -1, `irr` returns the guess unchanged |
| Cashflows.NewtonLoop | src/lib/finance/cashflows.ts:13-22 | the Newton loop returns what the Newton phase defines, after at most 200 iterations, and only an accepted root |
| Cashflows.BisectLoop | src/lib/finance/cashflows.ts:24-34 | the bisection loop returns the bisection rate after at most 200 iterations, strictly inside (-0.9, 5) |
| Cashflows.Irr | src/lib/finance/cashflows.ts:13-17 | a rate returned by the Newton phase has a present value within 1e-8 of 0 (or is the pole -1 of a single small flow) |
| Cashflows.ComputeIrr | src/lib/finance/cashflows.ts:6-35 | the loops compute `irr` with at most 200 Newton and 200 bisection iterations; a bisection result lies in (-0.9, 5) |
| Schedule.CuotaFrancesa | src/lib/finance/schedule.ts:182-187 | the installment is 0 for `n <= 0` and `P/n` for `i <= 0`; it is non-negative on a non-negative loan, and exceeds the first month's interest `P·i` when `P, i > 0` |
| Schedule.CalcSeguro | src/lib/finance/schedule.ts:189-196 | a fixed premium is its amount whatever the balance; with a non-negative balance, rate and tariff a percentage premium is non-negative and at most the tariff on the whole balance, so averaging the balance never raises it |
| Schedule.GraceMonth | src/lib/finance/schedule.ts:63-115 | a grace month pays no installment and amortises nothing; only `total` grace moves the balance, by adding the interest; the flow is the negated `cuotaTotal`, except for a `total` month that collects insurance with a negative premium |
| Schedule.AmortRow | src/lib/finance/schedule.ts:121-142 | the installment pays the interest on the opening balance first; `amortizacion` is what is left of it, never negative, and equals `cuota - interes` exactly when the installment covers the interest; the balance falls by `amortizacion`; `cuotaTotal = (cuota + seguro)·(1 + itf)` |
| Schedule.VanMensual | src/lib/finance/schedule.ts:163 | `vanMensual` is the sum of each flow `t` discounted by `(1+i)^t`; at `i = -1` it is missing exactly when there are two or more flows, and a single flow is its own value |
| Schedule.GraceStage | src/lib/finance/schedule.ts:54-115 | after `k` grace months there are `k` rows and one more flow, `flujo[0] = principal - costosIniciales`, and the running balance is the last row's (the principal before any month) |
| Schedule.AmortStage | src/lib/finance/schedule.ts:121-145 | `k` amortising months add `k` rows and `k` flows, leave `flujo[0]` alone, and leave the running balance at the last row's |
| ScheduleLemmas.AmortStageKeeps | src/lib/finance/schedule.ts:133-144 | the amortising months only append: the rows and flows they start from stay in place |
| ScheduleLemmas.AmortRowIs | src/lib/finance/schedule.ts:121-142 | amortising row `j` is month `j + 1` (`mes = graciaMeses + j + 1`) computed on the balance left after `j` months |
| ScheduleLemmas.AmortFlowIs | src/lib/finance/schedule.ts:128-144 | every flow an amortising month pushes is the negated `cuotaTotal` of its row |
| Schedule.GenerarPlan | src/lib/finance/schedule.ts:48-178 | there are `G + max(0, nMeses - graciaMeses)` rows and one more flow; `flujo[0] = desembolsoNeto = principal - costosIniciales`; `Pfinanciado = principal`; `tcea = (1 + tirMensual)^12 - 1`; `vanMensual` is the NPV of the flow at `iMensual` whenever `iMensual != -1` |
| ScheduleLemmas.GraceBalance | src/lib/finance/schedule.ts:63-115 | during grace the balance stays at the principal under `sin` and `parcial`, and is `principal·(1+i)^k` after `k` months of `total` |
| ScheduleLemmas.EntryBalance | src/lib/finance/schedule.ts:63-119 | the balance entering amortisation is `principal·(1+i)^graciaMeses` under `total` and the principal otherwise |
| ScheduleLemmas.RowsAreMonths | src/lib/finance/schedule.ts:63-122 | for `graciaMeses >= 0` there are `graciaMeses + max(0, nMeses - graciaMeses)` rows with `mes = 1, 2, 3, ...` in order |
| ScheduleLemmas.SinGraceRows | src/lib/finance/schedule.ts:101-114 | under `sin` every grace row is all zero with the balance at the principal, and its flow is 0 |
| ScheduleLemmas.ParcialGraceRows | src/lib/finance/schedule.ts:67-80 | a `parcial` grace row has `cuota = amortizacion = 0`, the balance unchanged, `interes = principal·i`, the premium on the principal, `itf = (interes + seguro)·itf`, `cuotaTotal = interes + seguro + itf`, and flow `-cuotaTotal` |
| ScheduleLemmas.UncapitalisedPlanRow | src/lib/finance/schedule.ts:63-114 | under `sin` and `parcial` grace, grace row `j` and its flow are those of grace month `j + 1` on the principal |
| ScheduleLemmas.TotalPlanRow | src/lib/finance/schedule.ts:81-100 | `total` grace row `j` has `cuota = amortizacion = 0` and `interes = principal·(1+i)^j·i`, and closes at `principal·(1+i)^(j+1)`; its premium is on the opening balance; `itf = seguro·itf` if insurance is collected in total grace and the premium is positive, else 0; `cuotaTotal = seguro + itf` when insurance is collected, else 0; its flow is `-(seguro + seguro·itf)` when the premium is collected and positive, else 0 |
| ScheduleLemmas.AmortPlanRow | src/lib/finance/schedule.ts:121-144 | an amortising row has `cuota = pagoConstante`, interest on its opening balance, `amortizacion = max(0, cuota - interes)`, `saldo = opening - amortizacion`, the premium on the opening balance, `itf = (pagoConstante + seguro)·itf`, `cuotaTotal = pagoConstante + seguro + itf`, and flow `-cuotaTotal` |
| ScheduleLemmas.AmortShapeDecreases | src/lib/finance/schedule.ts:124-131 | an amortising row never amortises a negative amount, so the balance never grows |
| ScheduleLemmas.FlowsMatchInstallments | src/lib/finance/schedule.ts:59-144 | `flujo[0] = principal - costosIniciales`, and `flujo[k] = -rows[k-1].cuotaTotal` except for a collected `total` grace month with a negative premium, whose flow is 0 while its row charges the premium |
| ScheduleLemmas.FlowsAreNegatedInstallments | src/lib/finance/schedule.ts:80-144 | when no premium is negative, every payment flow is the negated total installment of its row |
| ScheduleLemmas.ColumnSumAppend | src/lib/finance/schedule.ts:147-149 | a column total over two runs of rows is the sum of their totals |
| ScheduleLemmas.ParcialGraceInterest | src/lib/finance/schedule.ts:63-80 | with `interes = principal·i`, `k` months of `parcial` grace charge `k·interes` interest in total |
| ScheduleLemmas.InterestByPhase | src/lib/finance/schedule.ts:147 | `totInteres` is the grace months' interest plus the amortising months' interest |
| ScheduleLemmas.PfinanciadoIsPrincipal | src/lib/finance/schedule.ts:169 | `Pfinanciado` is the principal; it equals the post-grace balance except under `total` grace, where with `i > 0`, a positive principal and at least one grace month it is strictly smaller |
| Payoff.CuotaIsInstallment | src/lib/finance/schedule.ts:182-187 | the installment meets the annuity equation `c·((1+i)^n - 1) = P·i·(1+i)^n`, or `c·n = P` at zero interest |
| Payoff.FrenchStep | src/lib/finance/schedule.ts:121-131 | on a balance on the annuity's closed form, the installment covers the interest, and paying it keeps the balance on the closed form one month later |
| Payoff.FrenchBalance | src/lib/finance/schedule.ts:119-145 | after `k` French months the balance `s` satisfies `s·(f - 1) = B·(f - (1+i)^k)` with `f = (1+i)^n`, or `s·n = B·(n - k)` at zero interest |
| Payoff.AmortisationTelescopes | src/lib/finance/schedule.ts:121-145 | whatever the installment, the amortisation column over the amortising months equals the fall in the balance |
| Payoff.LoanIsRepaid | src/lib/finance/schedule.ts:117-145 | with a non-negative principal and rate and at least one amortising month, the last balance is exactly 0, and the amortisation column adds up to the balance that entered amortisation |
| Payoff.NoAmortisationClamp | src/lib/finance/schedule.ts:123-125 | under the same conditions, the clamp of a negative amortisation to zero never fires: each amortising row pays off `cuota - interes >= 0` |
| Payoff.InstallmentsRepayPrincipal | src/lib/finance/schedule.ts:101-147 | without grace or under `sin` grace, with a non-negative principal and rate, the installments add up to `totInteres + principal` |
| Payoff.OnScheduleNonNegative | src/lib/finance/schedule.ts:121-145 | a balance on the French schedule of a non-negative loan at a non-negative rate is never negative |
| Payoff.PaymentFlowsNonPositive | src/lib/finance/schedule.ts:42-144 | with a non-negative principal, rate, ITF and premium, `flujo[0] > 0` exactly when `costosIniciales < principal`, and every later flow is at most 0 |
| Sim.BonosTotal | src/lib/finance/sim.ts:39 | a list with no bonus totals 0, and bonuses that are never negative total at least 0 |
| Sim.BonosTotalAppend | src/lib/finance/sim.ts:39 | the bonus total of two lists is the sum of their totals |
| Sim.MissingBonoCountsZero | src/lib/finance/sim.ts:39 | a missing bonus entry adds nothing, wherever it sits |
| Sim.Principal | src/lib/finance/sim.ts:39-40 | the principal is `max(0, precioVenta - cuotaInicial - bonuses)`: never negative, at least the difference, and equal to it or to 0 |
| Sim.EngineInput | src/lib/finance/sim.ts:42-54 | the engine gets the principal and a monthly rate whose twelfth compounding is the quoted annual factor; term, grace, ITF, insurance, costs and the total-grace insurance flag pass unchanged |
| Sim.Simular | src/lib/finance/sim.ts:31-60 | `principalFinanciado` equals `Pfinanciado` and is never negative; the net disbursement is `principalFinanciado - costosIniciales`; the schedule has the engine's row count |
| Sim.EngineRateIsMonthlyEquivalent | src/lib/finance/sim.ts:42 | the engine's rate is `toMonthlyRate(tipoTasa, tasaValor, capitalizacion)`, and annualising it gives the quoted effective annual rate back |
| Sim.AbsentBonosAreNone | src/lib/finance/sim.ts:35-40 | absent bonuses give the same principal as an empty list |
| Sim.AbsentCapitalizacionIsTwelve | src/lib/finance/sim.ts:33-42 | an absent capitalisation gives the same response as twelve |
| Sim.MonedaIsIgnored | src/lib/finance/sim.ts:31-37 | the currency has no influence on the response |
| Sim.SimulatedLoanIsRepaid | src/lib/finance/sim.ts:31-60 | with a non-negative quoted rate and a term longer than the grace, the simulated schedule ends at a zero balance |
| Tcea.TceaFromCashflow | src/lib/finance/tcea.ts:13-24 | the result is `null` exactly when the flow is empty |
| Tcea.TceaDefault | src/lib/finance/tcea.ts:13-20 | with the default guess 0.01 the result is `null` exactly for an empty flow; otherwise converting the TCEA back with `toMonthlyRate("TEA", tcea)` gives `irr(cashflow, 0.01)`, and `1 + tcea = (1 + irr)^12` |
| Tcea.TceaIsAnnualisedIrr | src/lib/finance/tcea.ts:17-20 | for a non-empty flow and a guess above -1 there is a TCEA, and its monthly equivalent is the flow's IRR: `1 + tcea = (1 + irr)^12` |
| Tcea.NoSignChangeGivesAnnualisedGuess | src/lib/finance/tcea.ts:17-20 | when Newton gave up and there is no sign change on [-0.9, 5], the TCEA is the annualised guess, not `null` |
| Tcea.NonNegativeFlowGetsAnnualisedGuess | src/lib/finance/tcea.ts:11-20 | a flow that is never negative has no rate of return, yet gets the annualised guess as its TCEA |
| Tcea.PlanTceaAgrees | src/lib/finance/schedule.ts:151-158 | the schedule's `tcea` is `tceaFromCashflow` of its own flow with guess 0.01 |

## Left out

- Floating point is not modelled. All arithmetic is exact over `real`. IEEE-754 NaN and Infinity,
  `Number.isFinite` and the `try/catch` around `irr` are left out: in exact arithmetic `irr` never
  throws, so `tirMensual` and `tcea` are always present. Rounding drift is out of scope too: in
  floating point the final balance is only close to 0.
- The twelfth root (`Math.pow(x, 1/12)`) is the unique positive real whose twelfth power is `x`.
  Dafny's reals carry no completeness axiom, so the root's existence cannot be derived. It is
  therefore a hypothesis (`HasRoot12`) of `Rates.ToMonthlyRate`, of `Tasa.TeaToMensual` and
  `Tasa.TnaToMensual`, and of `Sim.Simular`.
- `Cashflows.Npv` is defined only for `1 + rate != 0`, because the source's value there is not
  finite as soon as there is a second flow. `irr`'s Newton phase at that pole is modelled
  through `Accepts`: with at most one flow the value is finite.
- Months and capitalisations are integers. A fractional `nMeses`, `graciaMeses` or
  `capitalizacion` is not modelled.
- Rates.ToMonthlyRate: defined only where `Rates.Convertible` holds, that is, for a TNA with
  `capitalizacion >= 1` and an annual factor with a positive twelfth root. For other inputs the
  source still computes a value:
  - With `capitalizacion = 0`, `Math.pow(x, 0)` is 1 even for an infinite or NaN `x`, so the result is 0.
  - A negative `capitalizacion` gives a finite rate whenever `1 + t/m` is not 0 and the annual
    factor is positive.
  - A TEA of -1, or a TNA with `1 + t/m = 0` and `m >= 1`, gives exactly -1.
  - A negative annual factor gives NaN.
  `src/app/(protected)/simulaciones/nueva/form-schema.ts` lines 23-24 declare a rate of at least
  0.0001 and at least one capitalisation. No code in this repository applies that schema before
  `simular`, so these inputs are a gap of the model.
- `b?.monto || 0` treats a NaN amount as 0. Amounts here are reals, and a missing entry is `None`.
- `src/lib/finance/cronograma.ts` only re-exports `generarPlan` and is not part of this model.
- Rendering, UI, authentication, validation schemas and formatting are outside the core.
- ScheduleLemmas.RowsAreMonths: stated only for `graciaMeses >= 0`. With a negative value the grace
  loop does not run, and the source numbers the amortising rows `graciaMeses + k`, which does not
  start at 1 (`ScheduleLemmas.AmortRowIs` states that numbering for every input).
- Payoff.LoanIsRepaid: stated only for a non-negative principal and rate. With a negative rate or
  principal the clamp at schedule.ts line 125 can fire, and no payoff is claimed.
- Payoff.InstallmentsRepayPrincipal: stated only without grace or under `sin` grace, whose rows hold
  zeros. With `parcial` or `total` grace the interest column also holds grace-month interest that no
  installment pays. Under `total` grace the principal repaid is the capitalised balance
  (`Payoff.LoanIsRepaid` states that case).
- Payoff.PaymentFlowsNonPositive: stated only for a non-negative principal, rate, ITF and premium.
  Otherwise a payment flow can be positive.
- Sim.Simular: requires a rate that converts, that is, a twelfth root that exists and a TNA with at
  least one capitalisation. The `Rates.ToMonthlyRate` line above says what the source computes outside
  that.
