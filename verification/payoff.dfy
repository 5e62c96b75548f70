/** The French schedule repays the loan: in exact arithmetic, with a
    non-negative rate and balance, the constant installment always covers the
    interest, the balance follows the annuity's closed form and reaches zero
    exactly at the last month, and the amortisation column adds up to the
    balance that entered the amortising phase. */
module Payoff {
  import opened Powers
  import opened Schedule
  import opened ScheduleLemmas

  /** `s` is the balance left after `k` of `n` French installments on `b0` at
      the monthly rate `i`: `s·(f − 1) = b0·(f − (1+i)^k)` with `f = (1+i)^n`,
      and `s·n = b0·(n − k)` at zero interest. */
  predicate OnSchedule(b0: real, i: real, n: nat, k: nat, s: real) {
    if i == 0.0 then s * n as real == b0 * (n - k) as real
    else ClosedForm(b0, Pow(1.0 + i, n), Pow(1.0 + i, k), s)
  }

  /** The closed form at a positive rate, with `f = (1+i)^n` and `x = (1+i)^k`. */
  predicate ClosedForm(b0: real, f: real, x: real, s: real) {
    s * (f - 1.0) == b0 * (f - x)
  }

  /** `c` is the French installment on `b0` over `n` months at rate `i`. */
  predicate IsInstallment(b0: real, i: real, n: nat, c: real) {
    if i == 0.0 then c * n as real == b0
    else AnnuityEquation(b0, i, Pow(1.0 + i, n), c)
  }

  /** The installment equation at a positive rate, with `f = (1+i)^n`. */
  predicate AnnuityEquation(b0: real, i: real, f: real, c: real) {
    c * (f - 1.0) == b0 * i * f
  }

  /** `cuotaFrancesa` meets its defining equation. */
  lemma CuotaIsInstallment(b0: real, i: real, n: nat)
    requires n >= 1 && i >= 0.0
    ensures IsInstallment(b0, i, n, CuotaFrancesa(b0, i, n))
  {
    if i != 0.0 {
      var f := Pow(1.0 + i, n);
      PowGreaterThanOne(1.0 + i, n);
      DivMul(b0 * i * f, f - 1.0);
    }
  }

  /** Before any installment the whole balance is owed, after the last one
      nothing is. */
  lemma ScheduleEnds(b0: real, i: real, n: nat, s: real)
    requires n >= 1 && i >= 0.0
    ensures OnSchedule(b0, i, n, 0, b0)
    ensures OnSchedule(b0, i, n, n, s) <==> s == 0.0
  {
    var d := if i == 0.0 then n as real else Pow(1.0 + i, n) - 1.0;
    if i != 0.0 {
      PowGreaterThanOne(1.0 + i, n);
      assert Pow(1.0 + i, 0) == 1.0;
    }
    assert d > 0.0;
    if OnSchedule(b0, i, n, n, s) {
      assert s * d == 0.0 && -s * d == 0.0;
      FactorSign(s, d, 0.0);
      FactorSign(-s, d, 0.0);
    }
  }

  /** One month of an annuity at a positive rate: with the balance `s` on its
      closed form, the installment `c` covers the interest and leaves the
      balance on the closed form one month later (`x` stands for `(1+i)^k`). */
  lemma AnnuityStep(b0: real, i: real, f: real, x: real, x': real, c: real, s: real)
    requires i > 0.0 && f > 1.0 && b0 >= 0.0 && x > 0.0 && x' == (1.0 + i) * x
    requires AnnuityEquation(b0, i, f, c) && ClosedForm(b0, f, x, s)
    ensures c - s * i >= 0.0
    ensures ClosedForm(b0, f, x', s - (c - s * i))
  {
    assert (c - s * i) * (f - 1.0) == b0 * i * x;
    assert b0 * i * x >= 0.0;
    FactorSign(c - s * i, f - 1.0, b0 * i * x);
  }

  /** One month at zero interest: the installment `b0/n` amortises fully. */
  lemma EvenStep(b0: real, n: real, k: real, c: real, s: real)
    requires n > 0.0 && b0 >= 0.0
    requires c * n == b0 && s * n == b0 * (n - k)
    ensures c >= 0.0
    ensures (s - c) * n == b0 * (n - (k + 1.0))
  {
    FactorSign(c, n, b0);
  }

  /** Month `k + 1` of `n`: the French installment is at least the interest on
      a balance on the schedule, and paying it keeps the balance on the
      schedule. */
  lemma FrenchStep(b0: real, i: real, n: nat, k: nat, c: real, s: real)
    requires n >= 1 && i >= 0.0 && b0 >= 0.0 && k < n
    requires IsInstallment(b0, i, n, c) && OnSchedule(b0, i, n, k, s)
    ensures c - s * i >= 0.0
    ensures OnSchedule(b0, i, n, k + 1, s - (c - s * i))
  {
    if i == 0.0 {
      var nr, kr := n as real, k as real;
      EvenStep(b0, nr, kr, c, s);
      assert s * i == 0.0;
    } else {
      var q := 1.0 + i;
      PowGreaterThanOne(q, n);
      PowSucc(q, k);
      AnnuityStep(b0, i, Pow(q, n), Pow(q, k), Pow(q, k + 1), c, s);
    }
  }

  /** An amortising row whose installment covers the interest amortises
      exactly the installment less the interest. */
  lemma UnclampedRow(inp: SimInput, pago: real, b: real, r: Row)
    requires AmortShape(inp, pago, b, r) && pago - b * inp.iMensual >= 0.0
    ensures r.amortizacion == r.cuota - r.interes == pago - b * inp.iMensual
    ensures r.saldo == b - (pago - b * inp.iMensual)
  {
  }

  /** After `k` months of an installment `pago` meeting the French equation
      for the entry balance, the balance is on the annuity's closed form. */
  lemma {:induction false} FrenchBalance(inp: SimInput, entry: Stage, n: nat, pago: real, k: nat)
    requires Aligned(entry) && n >= 1 && k <= n
    requires inp.iMensual >= 0.0 && entry.saldo >= 0.0
    requires IsInstallment(entry.saldo, inp.iMensual, n, pago)
    ensures OnSchedule(entry.saldo, inp.iMensual, n, k, AmortStage(inp, pago, entry, k).saldo)
  {
    var b0, i := entry.saldo, inp.iMensual;
    if k == 0 {
      ScheduleEnds(b0, i, n, b0);
    } else {
      FrenchBalance(inp, entry, n, pago, k - 1);
      AmortStageBalanceStep(inp, pago, entry, k);
      BalanceStep(inp, pago, b0, n, k, AmortStage(inp, pago, entry, k - 1).saldo);
    }
  }

  /** The balance after month `k` is the closing balance of month `k` on the
      balance after month `k − 1`. */
  lemma AmortStageBalanceStep(inp: SimInput, pago: real, entry: Stage, k: nat)
    requires Aligned(entry) && k >= 1
    ensures AmortStage(inp, pago, entry, k).saldo
         == AmortRow(inp, pago, k, AmortStage(inp, pago, entry, k - 1).saldo).saldo
  {
  }

  /** Month `k` of the French schedule keeps the balance on its closed form. */
  lemma BalanceStep(inp: SimInput, pago: real, b0: real, n: nat, k: nat, s: real)
    requires n >= 1 && 1 <= k <= n && inp.iMensual >= 0.0 && b0 >= 0.0
    requires IsInstallment(b0, inp.iMensual, n, pago)
    requires OnSchedule(b0, inp.iMensual, n, k - 1, s)
    ensures OnSchedule(b0, inp.iMensual, n, k, AmortRow(inp, pago, k, s).saldo)
  {
    FrenchStep(b0, inp.iMensual, n, k - 1, pago, s);
    AmortMonth(inp, pago, k, s);
    UnclampedRow(inp, pago, s, AmortRow(inp, pago, k, s));
  }

  /** No French month clamps its amortisation at zero: each pays off exactly
      the installment less the interest. */
  lemma FrenchRow(inp: SimInput, entry: Stage, n: nat, pago: real, j: nat)
    requires Aligned(entry) && n >= 1 && j < n
    requires inp.iMensual >= 0.0 && entry.saldo >= 0.0
    requires IsInstallment(entry.saldo, inp.iMensual, n, pago)
    ensures var r := AmortStage(inp, pago, entry, n).rows[|entry.rows| + j];
      && r.amortizacion == r.cuota - r.interes
      && r.amortizacion >= 0.0
  {
    var s := AmortStage(inp, pago, entry, j).saldo;
    AmortStageRow(inp, pago, entry, n, j);
    FrenchBalance(inp, entry, n, pago, j);
    RowUnclamped(inp, pago, entry.saldo, n, j, s, AmortStage(inp, pago, entry, n).rows[|entry.rows| + j]);
  }

  /** A French month on a balance on the schedule pays off its installment
      less its interest, a non-negative amount. */
  lemma RowUnclamped(inp: SimInput, pago: real, b0: real, n: nat, j: nat, s: real, r: Row)
    requires n >= 1 && j < n && inp.iMensual >= 0.0 && b0 >= 0.0
    requires IsInstallment(b0, inp.iMensual, n, pago) && OnSchedule(b0, inp.iMensual, n, j, s)
    requires AmortShape(inp, pago, s, r)
    ensures r.amortizacion == r.cuota - r.interes && r.amortizacion >= 0.0
  {
    var i := inp.iMensual;
    InstallmentCoversInterest(b0, i, n, j, pago, s);
    UnclampedRow(inp, pago, s, r);
  }

  /** On a balance on the closed form the French installment covers the
      month's interest. */
  lemma InstallmentCoversInterest(b0: real, i: real, n: nat, k: nat, c: real, s: real)
    requires n >= 1 && i >= 0.0 && b0 >= 0.0 && k < n
    requires IsInstallment(b0, i, n, c) && OnSchedule(b0, i, n, k, s)
    ensures c - s * i >= 0.0
  {
    FrenchStep(b0, i, n, k, c, s);
  }

  /** Whatever the installment, the amortisation column of the amortising
      months adds up to the drop in the balance over them. */
  lemma {:induction false} AmortisationTelescopes(inp: SimInput, pago: real, entry: Stage, k: nat)
    requires Aligned(entry)
    ensures ColumnSum(AmortStage(inp, pago, entry, k).rows, AmortizacionCol)
         == ColumnSum(entry.rows, AmortizacionCol) + entry.saldo - AmortStage(inp, pago, entry, k).saldo
  {
    if k > 0 {
      AmortisationTelescopes(inp, pago, entry, k - 1);
      TelescopeStep(inp, pago, entry, k);
    } else {
      assert AmortStage(inp, pago, entry, k) == entry;
    }
  }

  lemma TelescopeStep(inp: SimInput, pago: real, entry: Stage, k: nat)
    requires Aligned(entry) && k > 0
    requires var prev := AmortStage(inp, pago, entry, k - 1);
      ColumnSum(prev.rows, AmortizacionCol) == ColumnSum(entry.rows, AmortizacionCol) + entry.saldo - prev.saldo
    ensures var st := AmortStage(inp, pago, entry, k);
      ColumnSum(st.rows, AmortizacionCol) == ColumnSum(entry.rows, AmortizacionCol) + entry.saldo - st.saldo
  {
    AmortStageLast(inp, pago, entry, k);
  }

  /** The last amortising month adds its amortisation to the column and takes
      it off the balance. */
  lemma AmortStageLast(inp: SimInput, pago: real, entry: Stage, k: nat)
    requires Aligned(entry) && k > 0
    ensures var st, prev := AmortStage(inp, pago, entry, k), AmortStage(inp, pago, entry, k - 1);
      var r := st.rows[|st.rows| - 1];
      && ColumnSum(st.rows, AmortizacionCol) == ColumnSum(prev.rows, AmortizacionCol) + r.amortizacion
      && st.saldo == prev.saldo - r.amortizacion
  {
    var prev := AmortStage(inp, pago, entry, k - 1);
    var rows := AmortStage(inp, pago, entry, k).rows;
    AmortMonth(inp, pago, k, prev.saldo);
    assert rows[..|rows| - 1] == prev.rows;
  }

  /** Grace months amortise nothing. */
  lemma {:induction false} GraceAmortisesNothing(inp: SimInput, k: nat)
    requires k <= GraceCount(inp)
    ensures ColumnSum(GraceStage(inp, k).rows, AmortizacionCol) == 0.0
  {
    if k > 0 {
      GraceAmortisesNothing(inp, k - 1);
      var prev := GraceStage(inp, k - 1);
      var row := GraceMonth(inp, k, prev.saldo).0;
      var rows := GraceStage(inp, k).rows;
      assert rows == prev.rows + [row];
      assert rows[..|rows| - 1] == prev.rows;
      assert Cell(row, AmortizacionCol) == 0.0;
    }
  }

  /** The balance entering the amortising phase is never negative on a
      non-negative principal and rate. */
  lemma EntryBalanceNonNegative(inp: SimInput)
    requires inp.principal >= 0.0 && inp.iMensual >= 0.0
    ensures GraceExit(inp).saldo >= 0.0
  {
    EntryBalance(inp);
    PowNonNegative(1.0 + inp.iMensual, GraceCount(inp));
  }

  /** The loan is repaid: with a non-negative principal and rate and at least
      one amortising month, the balance after the last row is exactly zero and
      the amortisation column adds up to the balance that entered the
      amortising phase (the principal, capitalised under `total` grace). */
  lemma LoanIsRepaid(inp: SimInput)
    requires inp.principal >= 0.0 && inp.iMensual >= 0.0 && AmortCount(inp) >= 1
    ensures var st := Plan(inp);
      && st.rows[|st.rows| - 1].saldo == 0.0
      && ColumnSum(st.rows, AmortizacionCol) == GraceExit(inp).saldo
  {
    var g, n := GraceExit(inp), AmortCount(inp);
    EntryBalanceNonNegative(inp);
    var pago := CuotaFrancesa(g.saldo, inp.iMensual, n);
    assert PagoConstante(inp) == pago;
    CuotaIsInstallment(g.saldo, inp.iMensual, n);
    FrenchBalance(inp, g, n, pago, n);
    ScheduleEnds(g.saldo, inp.iMensual, n, AmortStage(inp, pago, g, n).saldo);
    AmortisationTelescopes(inp, pago, g, n);
    GraceAmortisesNothing(inp, GraceCount(inp));
  }

  /** After grace, every row pays off exactly its installment less its
      interest, never a negative amount. */
  lemma NoAmortisationClamp(inp: SimInput, j: nat)
    requires inp.principal >= 0.0 && inp.iMensual >= 0.0
    requires GraceCount(inp) <= j < GraceCount(inp) + AmortCount(inp)
    ensures var r := Plan(inp).rows[j];
      r.amortizacion == r.cuota - r.interes && r.amortizacion >= 0.0
  {
    var g, n := GraceExit(inp), AmortCount(inp);
    EntryBalanceNonNegative(inp);
    var pago := CuotaFrancesa(g.saldo, inp.iMensual, n);
    assert PagoConstante(inp) == pago;
    CuotaIsInstallment(g.saldo, inp.iMensual, n);
    FrenchRow(inp, g, n, pago, j - GraceCount(inp));
  }

  /** Where every installment is interest plus amortisation, the installment
      column is the interest column plus the amortisation column. */
  lemma {:induction false} InstallmentColumnSplits(rows: seq<Row>)
    requires forall j :: 0 <= j < |rows| ==> rows[j].cuota == rows[j].interes + rows[j].amortizacion
    ensures ColumnSum(rows, CuotaCol) == ColumnSum(rows, InteresCol) + ColumnSum(rows, AmortizacionCol)
  {
    if |rows| > 0 {
      InstallmentColumnSplits(rows[..|rows| - 1]);
    }
  }

  /** Without grace, or with `sin` grace, and with a non-negative principal
      and rate, the installments add up to the total interest plus the
      principal. */
  lemma InstallmentsRepayPrincipal(inp: SimInput)
    requires inp.principal >= 0.0 && inp.iMensual >= 0.0
    requires (inp.graciaMeses <= 0 || inp.graciaTipo == Sin) && inp.nMeses > inp.graciaMeses
    ensures var out := GenerarPlan(inp);
      ColumnSum(out.rows, CuotaCol) == out.totInteres + inp.principal
  {
    var st := Plan(inp);
    forall j | 0 <= j < |st.rows|
      ensures st.rows[j].cuota == st.rows[j].interes + st.rows[j].amortizacion
    {
      if j < GraceCount(inp) {
        UncapitalisedPlanRow(inp, j);
      } else {
        NoAmortisationClamp(inp, j);
      }
    }
    InstallmentColumnSplits(st.rows);
    LoanIsRepaid(inp);
    EntryBalance(inp);
  }

  // ------------------------------------------------------------ Flow signs

  /** The insurance never pays the client: a fixed premium of at least 0, or a
      non-negative tariff. */
  predicate PremiumNonNegative(seguro: SeguroDesgravamen) {
    match seguro
    case Fijo(monto) => monto >= 0.0
    case Porcentaje(tasaMensual, _) => tasaMensual >= 0.0
  }

  /** A balance on the French schedule of a non-negative loan at a
      non-negative rate is never negative. */
  lemma OnScheduleNonNegative(b0: real, i: real, n: nat, k: nat, s: real)
    requires n >= 1 && k <= n && b0 >= 0.0 && i >= 0.0
    requires OnSchedule(b0, i, n, k, s)
    ensures s >= 0.0
  {
    if i == 0.0 {
      assert b0 * (n - k) as real >= 0.0;
      FactorSign(s, n as real, b0 * (n - k) as real);
    } else {
      PowGrows(1.0 + i, k, n);
      PowGreaterThanOne(1.0 + i, n);
      ClosedFormNonNegative(b0, Pow(1.0 + i, n), Pow(1.0 + i, k), s);
    }
  }

  lemma ClosedFormNonNegative(b0: real, f: real, x: real, s: real)
    requires b0 >= 0.0 && f > 1.0 && x <= f && ClosedForm(b0, f, x, s)
    ensures s >= 0.0
  {
    NonNegativeProduct(b0, f - x);
    FactorSign(s, f - 1.0, b0 * (f - x));
  }

  /** The client's payment in grace row `j` is never negative. */
  lemma GraceFlowNonPositive(inp: SimInput, j: nat)
    requires inp.principal >= 0.0 && inp.iMensual >= 0.0 && inp.itf >= 0.0
    requires PremiumNonNegative(inp.seguro)
    requires j < GraceCount(inp)
    ensures Plan(inp).flujo[j + 1] <= 0.0
  {
    if inp.graciaTipo == Total {
      var s := inp.principal * Pow(1.0 + inp.iMensual, j);
      PowNonNegative(1.0 + inp.iMensual, j);
      NonNegativeProduct(inp.principal, Pow(1.0 + inp.iMensual, j));
      TotalPlanRow(inp, j);
      TotalPaymentNonNegative(inp, s, Plan(inp).rows[j], Plan(inp).flujo[j + 1]);
    } else {
      UncapitalisedPlanRow(inp, j);
      UncapitalisedPaymentNonNegative(inp, j + 1);
    }
  }

  lemma TotalPaymentNonNegative(inp: SimInput, s: real, r: Row, flow: real)
    requires inp.iMensual >= 0.0 && inp.itf >= 0.0 && PremiumNonNegative(inp.seguro)
    requires s >= 0.0 && TotalShape(inp, s, r, flow)
    ensures flow <= 0.0
  {
    if r.seguro > 0.0 {
      NonNegativeProduct(r.seguro, inp.itf);
    }
  }

  lemma UncapitalisedPaymentNonNegative(inp: SimInput, m: int)
    requires inp.principal >= 0.0 && inp.iMensual >= 0.0 && inp.itf >= 0.0
    requires PremiumNonNegative(inp.seguro) && inp.graciaTipo != Total
    ensures GraceMonth(inp, m, inp.principal).1 <= 0.0
  {
    var seg := CalcSeguro(inp.seguro, inp.principal, inp.iMensual);
    NonNegativeProduct(inp.principal, inp.iMensual);
    NonNegativeProduct(inp.principal * inp.iMensual + seg, inp.itf);
  }

  /** The client's payment in amortising row `j` is never negative. */
  lemma AmortFlowNonPositive(inp: SimInput, j: nat)
    requires inp.principal >= 0.0 && inp.iMensual >= 0.0 && inp.itf >= 0.0
    requires PremiumNonNegative(inp.seguro)
    requires GraceCount(inp) <= j < GraceCount(inp) + AmortCount(inp)
    ensures Plan(inp).flujo[j + 1] <= 0.0
  {
    var g, n, k := GraceExit(inp), AmortCount(inp), j - GraceCount(inp);
    var pago := PagoConstante(inp);
    FrenchOpeningNonNegative(inp, k);
    assert Plan(inp) == AmortStage(inp, pago, g, n);
    AmortStageRow(inp, pago, g, n, k);
    AmortFlowIs(inp, pago, g, n, k);
    var st := AmortStage(inp, pago, g, n);
    AmortPaymentNonNegative(inp, pago, AmortStage(inp, pago, g, k).saldo, st.rows[j], st.flujo[j + 1]);
  }

  /** The constant installment and every balance it leaves are non-negative. */
  lemma FrenchOpeningNonNegative(inp: SimInput, k: nat)
    requires inp.principal >= 0.0 && inp.iMensual >= 0.0 && k < AmortCount(inp)
    ensures PagoConstante(inp) >= 0.0
    ensures AmortStage(inp, PagoConstante(inp), GraceExit(inp), k).saldo >= 0.0
  {
    var g, n, i := GraceExit(inp), AmortCount(inp), inp.iMensual;
    EntryBalanceNonNegative(inp);
    var pago := PagoConstante(inp);
    assert pago == CuotaFrancesa(g.saldo, i, n);
    CuotaIsInstallment(g.saldo, i, n);
    FrenchBalance(inp, g, n, pago, k);
    OnScheduleNonNegative(g.saldo, i, n, k, AmortStage(inp, pago, g, k).saldo);
  }

  lemma AmortPaymentNonNegative(inp: SimInput, pago: real, b: real, r: Row, flow: real)
    requires inp.iMensual >= 0.0 && inp.itf >= 0.0 && PremiumNonNegative(inp.seguro)
    requires pago >= 0.0 && b >= 0.0
    requires AmortShape(inp, pago, b, r) && flow == -r.cuotaTotal
    ensures flow <= 0.0
  {
    NonNegativeProduct(pago + r.seguro, inp.itf);
  }

  /** The client flow has the signs its comment promises, with zero allowed:
      the disbursement `flujo[0]` is positive exactly when the up-front costs
      are below the principal, and no later flow is positive. */
  lemma PaymentFlowsNonPositive(inp: SimInput)
    requires inp.principal >= 0.0 && inp.iMensual >= 0.0 && inp.itf >= 0.0
    requires PremiumNonNegative(inp.seguro)
    ensures var out := GenerarPlan(inp);
      && (out.flujo[0] > 0.0 <==> inp.costosIniciales < inp.principal)
      && forall k :: 1 <= k < |out.flujo| ==> out.flujo[k] <= 0.0
  {
    PlanFlowIsOutput(inp);
    PlanFlowsNonPositive(inp);
  }

  lemma PlanFlowIsOutput(inp: SimInput)
    ensures GenerarPlan(inp).flujo == Plan(inp).flujo
  {
  }

  lemma PlanFlowsNonPositive(inp: SimInput)
    requires inp.principal >= 0.0 && inp.iMensual >= 0.0 && inp.itf >= 0.0
    requires PremiumNonNegative(inp.seguro)
    ensures var flujo := Plan(inp).flujo;
      forall k :: 1 <= k < |flujo| ==> flujo[k] <= 0.0
  {
    var flujo := Plan(inp).flujo;
    forall k | 1 <= k < |flujo|
      ensures flujo[k] <= 0.0
    {
      if k - 1 < GraceCount(inp) {
        GraceFlowNonPositive(inp, k - 1);
      } else {
        AmortFlowNonPositive(inp, k - 1);
      }
    }
  }
}
