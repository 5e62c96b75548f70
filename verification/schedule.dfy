/** The amortisation engine `generarPlan`: grace months under one of three
    regimes, then French amortisation with a constant installment; the client
    cash-flow vector, the column totals and the rates derived from them. */
module Schedule {
  import opened Wrappers
  import opened Powers
  import Cashflows
  import Rates

  /** `sin`: no grace; `parcial`: interest only; `total`: interest capitalised. */
  datatype GraceType = Sin | Parcial | Total

  datatype SeguroBase = Saldo | SaldoPromedio

  /** The declining-balance life insurance (seguro de desgravamen). */
  datatype SeguroDesgravamen =
    | Fijo(monto: real)
    | Porcentaje(tasaMensual: real, base: SeguroBase)

  datatype SimInput = SimInput(
    principal: real,
    nMeses: int,
    iMensual: real,
    graciaMeses: int,
    graciaTipo: GraceType,
    itf: real,
    seguro: SeguroDesgravamen,
    costosIniciales: real,
    cobraSeguroEnGraciaTotal: Option<bool>)

  datatype Row = Row(
    mes: int,
    cuota: real,
    interes: real,
    amortizacion: real,
    seguro: real,
    itf: real,
    cuotaTotal: real,
    saldo: real)

  /** `vanMensual` is `None` where JavaScript's value is not finite: at
      `iMensual = -1` with at least one payment flow. */
  datatype SimOutput = SimOutput(
    rows: seq<Row>,
    desembolsoNeto: real,
    pagoConstante: real,
    Pfinanciado: real,
    totInteres: real,
    totSeguros: real,
    totITF: real,
    flujo: seq<real>,
    tirMensual: Option<real>,
    tcea: Option<real>,
    vanMensual: Option<real>)

  /** The starting guess `generarPlan` hands to `irr`. */
  const PlanIrrGuess: real := 0.01

  // ---------------------------------------------------------------- Helpers

  /** The constant French installment repaying `P` over `n` months at rate
      `i`: nothing without a term, an even share of the principal without
      interest, and otherwise never negative on a non-negative loan and more
      than the first month's interest on a positive one. */
  function CuotaFrancesa(P: real, i: real, n: int): (c: real)
    ensures n <= 0 ==> c == 0.0
    ensures n > 0 && i <= 0.0 ==> c * n as real == P
    ensures P >= 0.0 && i >= 0.0 ==> c >= 0.0
    ensures n > 0 && P > 0.0 && i > 0.0 ==> c > P * i
  {
    if n <= 0 then 0.0
    else if i <= 0.0 then P / n as real
    else
      var f := Pow(1.0 + i, n as nat);
      PowGreaterThanOne(1.0 + i, n as nat);
      AnnuityExceedsInterest(P, i, f);
      P * i * f / (f - 1.0)
  }

  lemma AnnuityExceedsInterest(P: real, i: real, f: real)
    requires f > 1.0 && i > 0.0
    ensures P >= 0.0 ==> P * i * f / (f - 1.0) >= 0.0
    ensures P > 0.0 ==> P * i * f / (f - 1.0) > P * i
  {
    var a, d := P * i, f - 1.0;
    assert a * f == a * d + a;
    assert (a * d + a) / d == (a * d) / d + a / d;
    assert P * i * f / (f - 1.0) == a + a / d;
    if P >= 0.0 {
      assert a >= 0.0;
      assert a / d >= 0.0;
    }
  }

  /** The month's insurance premium on the balance at the start of the
      month. A fixed premium ignores the balance; a percentage premium on a
      non-negative balance, rate and tariff is never negative, and never more
      than the tariff on the whole balance (averaging only lowers it). */
  function CalcSeguro(seguro: SeguroDesgravamen, saldo: real, iMensual: real): (p: real)
    ensures seguro.Fijo? ==> p == seguro.monto
    ensures seguro.Porcentaje? && seguro.tasaMensual >= 0.0 && saldo >= 0.0 && iMensual >= 0.0 ==>
      0.0 <= p <= saldo * seguro.tasaMensual
  {
    match seguro
    case Fijo(monto) => monto
    case Porcentaje(tasaMensual, base) =>
      var b := if base == SaldoPromedio then (saldo + Max0(saldo - saldo * iMensual)) / 2.0 else saldo;
      PremiumBounds(b, saldo, iMensual, tasaMensual);
      b * tasaMensual
  }

  function Max0(x: real): real {
    if x > 0.0 then x else 0.0
  }

  lemma PremiumBounds(b: real, saldo: real, i: real, tasa: real)
    requires b == saldo || b == (saldo + Max0(saldo - saldo * i)) / 2.0
    ensures tasa >= 0.0 && saldo >= 0.0 && i >= 0.0 ==> 0.0 <= b * tasa <= saldo * tasa
  {
    if tasa >= 0.0 && saldo >= 0.0 && i >= 0.0 {
      assert saldo * i >= 0.0;
      assert 0.0 <= b <= saldo;
      assert (saldo - b) * tasa >= 0.0;
      assert b * tasa >= 0.0;
    }
  }

  // ----------------------------------------------------------------- Stages

  /** Months run by the grace loop `for (m = 1; m <= graciaMeses; m++)`. */
  function GraceCount(inp: SimInput): nat {
    if inp.graciaMeses > 0 then inp.graciaMeses else 0
  }

  /** Months run by the amortisation loop `for (k = 1; k <= rem; k++)`. */
  function AmortCount(inp: SimInput): nat {
    var rem := inp.nMeses - inp.graciaMeses;
    if rem > 0 then rem else 0
  }

  /** The rows and flows produced so far, and the running balance. */
  datatype Stage = Stage(rows: seq<Row>, flujo: seq<real>, saldo: real)

  predicate Aligned(st: Stage) {
    |st.flujo| == |st.rows| + 1
  }

  /** Before the first month: the net disbursement at t0 and the principal. */
  function Opening(inp: SimInput): Stage {
    Stage([], [inp.principal - inp.costosIniciales], inp.principal)
  }

  function Cobra(inp: SimInput): bool {
    inp.cobraSeguroEnGraciaTotal.GetOr(false)
  }

  /** Grace month `m` on opening balance `saldo`: its row and its client
      flow. A grace month pays no installment and amortises nothing; only
      `total` grace moves the balance, by capitalising the interest. The client
      pays the row's total, except that a collected `total` premium that is
      negative is charged on the row but not paid. */
  function GraceMonth(inp: SimInput, m: int, saldo: real): (res: (Row, real))
    ensures res.0.mes == m && res.0.cuota == 0.0 && res.0.amortizacion == 0.0
    ensures res.0.saldo == if inp.graciaTipo == Total then saldo + res.0.interes else saldo
    ensures res.1 == -res.0.cuotaTotal <==> !(inp.graciaTipo == Total && Cobra(inp) && res.0.seguro < 0.0)
  {
    var interes := saldo * inp.iMensual;
    var seguroMes := CalcSeguro(inp.seguro, saldo, inp.iMensual);
    match inp.graciaTipo
    case Parcial =>
      var pagoInteres := interes + seguroMes;
      var itfMes := pagoInteres * inp.itf;
      (Row(m, 0.0, interes, 0.0, seguroMes, itfMes, pagoInteres + itfMes, saldo),
       -(pagoInteres + itfMes))
    case Total =>
      var collects := Cobra(inp) && seguroMes > 0.0;
      var itfMes := if collects then seguroMes * inp.itf else 0.0;
      (Row(m, 0.0, interes, 0.0, seguroMes, itfMes,
           if Cobra(inp) then seguroMes + itfMes else 0.0, saldo + interes),
       if collects then -(seguroMes + itfMes) else 0.0)
    case Sin =>
      (Row(m, 0.0, 0.0, 0.0, 0.0, 0.0, 0.0, saldo), 0.0)
  }

  /** The state after the first `k` grace months. */
  function GraceStage(inp: SimInput, k: nat): (st: Stage)
    requires k <= GraceCount(inp)
    ensures Aligned(st) && |st.rows| == k
    ensures st.flujo[0] == inp.principal - inp.costosIniciales
    ensures st.saldo == if k == 0 then inp.principal else st.rows[k - 1].saldo
  {
    if k == 0 then Opening(inp)
    else
      var prev := GraceStage(inp, k - 1);
      var (row, flow) := GraceMonth(inp, k, prev.saldo);
      Stage(prev.rows + [row], prev.flujo + [flow], row.saldo)
  }

  /** Amortising month `k` (1-based) on opening balance `saldo`. The
      installment pays the month's interest first and amortises the rest; one
      that does not cover the interest amortises nothing and the shortfall is
      not added to the balance. The client pays the installment, the premium
      and the tax on both. */
  function AmortRow(inp: SimInput, pago: real, k: int, saldo: real): (r: Row)
    ensures r.mes == inp.graciaMeses + k && r.cuota == pago && r.interes == saldo * inp.iMensual
    ensures r.amortizacion >= 0.0 && r.saldo == saldo - r.amortizacion
    ensures r.amortizacion == pago - r.interes <==> pago >= r.interes
    ensures r.cuotaTotal == (pago + r.seguro) * (1.0 + inp.itf)
  {
    var interes := saldo * inp.iMensual;
    var amort := if pago - interes < 0.0 then 0.0 else pago - interes;
    var seguroMes := CalcSeguro(inp.seguro, saldo, inp.iMensual);
    var itfMes := (pago + seguroMes) * inp.itf;
    Row(inp.graciaMeses + k, pago, interes, amort, seguroMes, itfMes, pago + seguroMes + itfMes, saldo - amort)
  }

  /** The state after `k` amortising months following `entry`. */
  function AmortStage(inp: SimInput, pago: real, entry: Stage, k: nat): (st: Stage)
    requires Aligned(entry)
    ensures Aligned(st) && |st.rows| == |entry.rows| + k
    ensures st.flujo[0] == entry.flujo[0]
    ensures st.saldo == if k == 0 then entry.saldo else st.rows[|st.rows| - 1].saldo
  {
    if k == 0 then entry
    else
      var prev := AmortStage(inp, pago, entry, k - 1);
      var row := AmortRow(inp, pago, k, prev.saldo);
      Stage(prev.rows + [row], prev.flujo + [-row.cuotaTotal], row.saldo)
  }

  // ----------------------------------------------------------------- Totals

  datatype Column = InteresCol | AmortizacionCol | SeguroCol | ItfCol | CuotaCol | CuotaTotalCol

  function Cell(r: Row, c: Column): real {
    match c
    case InteresCol => r.interes
    case AmortizacionCol => r.amortizacion
    case SeguroCol => r.seguro
    case ItfCol => r.itf
    case CuotaCol => r.cuota
    case CuotaTotalCol => r.cuotaTotal
  }

  /** A column summed over the rows, as `rows.reduce((a, r) => a + r.col, 0)`. */
  function ColumnSum(rows: seq<Row>, c: Column): real {
    if |rows| == 0 then 0.0 else ColumnSum(rows[..|rows| - 1], c) + Cell(rows[|rows| - 1], c)
  }

  // ------------------------------------------------------------ The engine

  /** The balance entering the amortising phase. */
  function GraceExit(inp: SimInput): Stage {
    GraceStage(inp, GraceCount(inp))
  }

  /** The constant installment after grace. */
  function PagoConstante(inp: SimInput): real {
    var rem := inp.nMeses - inp.graciaMeses;
    if rem > 0 then CuotaFrancesa(GraceExit(inp).saldo, inp.iMensual, rem) else 0.0
  }

  function Plan(inp: SimInput): (st: Stage)
    ensures Aligned(st) && |st.rows| == GraceCount(inp) + AmortCount(inp)
  {
    AmortStage(inp, PagoConstante(inp), GraceExit(inp), AmortCount(inp))
  }

  /** `npv(iMensual, flujo)`, or `None` where the source's value is not
      finite: at `iMensual = -1` every flow after the first is divided by 0. */
  function VanMensual(i: real, flujo: seq<real>): (v: Option<real>)
    ensures v.None? <==> 1.0 + i == 0.0 && |flujo| >= 2
    ensures 1.0 + i != 0.0 ==> v == Some(Cashflows.DiscountedSum(i, flujo))
    ensures 1.0 + i == 0.0 && |flujo| == 1 ==> v == Some(flujo[0])
  {
    if 1.0 + i != 0.0 then
      Cashflows.NpvIsDiscountedSum(i, flujo);
      Some(Cashflows.Npv(i, flujo))
    else if |flujo| == 0 then Some(0.0)
    else if |flujo| == 1 then Some(flujo[0])
    else None
  }

  /** `generarPlan(input)`. */
  function GenerarPlan(inp: SimInput): (out: SimOutput)
    ensures |out.rows| == GraceCount(inp) + AmortCount(inp)
    ensures |out.flujo| == |out.rows| + 1
    ensures out.flujo[0] == out.desembolsoNeto == inp.principal - inp.costosIniciales
    ensures out.Pfinanciado == inp.principal
    ensures out.tirMensual.Some?
    ensures out.tcea == Some(Rates.ToEffectiveAnnualFromMonthly(out.tirMensual.value))
    ensures 1.0 + inp.iMensual != 0.0 ==> out.vanMensual == Some(Cashflows.Npv(inp.iMensual, out.flujo))
  {
    var plan := Plan(inp);
    var tir := Cashflows.Irr(plan.flujo, PlanIrrGuess);
    SimOutput(
      rows := plan.rows,
      desembolsoNeto := inp.principal - inp.costosIniciales,
      pagoConstante := PagoConstante(inp),
      Pfinanciado := inp.principal,
      totInteres := ColumnSum(plan.rows, InteresCol),
      totSeguros := ColumnSum(plan.rows, SeguroCol),
      totITF := ColumnSum(plan.rows, ItfCol),
      flujo := plan.flujo,
      tirMensual := Some(tir),
      tcea := Some(Rates.ToEffectiveAnnualFromMonthly(tir)),
      vanMensual := VanMensual(inp.iMensual, plan.flujo))
  }
}
