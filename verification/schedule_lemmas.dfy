/** What the amortisation engine promises about its schedule: the shape of
    the rows and flows, each grace regime, the amortising rows, and the exact
    payoff of the loan in exact arithmetic. */
module ScheduleLemmas {
  import opened Powers
  import opened Schedule

  // ------------------------------------------------------ Unfolding stages

  /** Grace row `j` is grace month `j + 1` on the balance after `j` months. */
  lemma {:induction false} GraceRowIs(inp: SimInput, k: nat, j: nat)
    requires j < k <= GraceCount(inp)
    ensures GraceStage(inp, k).rows[j] == GraceMonth(inp, j + 1, GraceStage(inp, j).saldo).0
    ensures GraceStage(inp, k).flujo[j + 1] == GraceMonth(inp, j + 1, GraceStage(inp, j).saldo).1
  {
    if j < k - 1 {
      GraceRowIs(inp, k - 1, j);
    }
  }

  /** Amortising row `|entry.rows| + j` is month `j + 1` on the balance after `j` months. */
  lemma {:induction false} AmortRowIs(inp: SimInput, pago: real, entry: Stage, k: nat, j: nat)
    requires Aligned(entry) && j < k
    ensures AmortStage(inp, pago, entry, k).rows[|entry.rows| + j]
         == AmortRow(inp, pago, j + 1, AmortStage(inp, pago, entry, j).saldo)
  {
    if j < k - 1 {
      AmortRowIs(inp, pago, entry, k - 1, j);
    }
  }

  /** The amortising months only append: the earlier rows and flows stay. */
  lemma {:induction false} AmortStageKeeps(inp: SimInput, pago: real, entry: Stage, k: nat)
    requires Aligned(entry)
    ensures var st := AmortStage(inp, pago, entry, k);
      st.rows[..|entry.rows|] == entry.rows && st.flujo[..|entry.flujo|] == entry.flujo
  {
    if k > 0 {
      AmortStageKeeps(inp, pago, entry, k - 1);
      var prev, st := AmortStage(inp, pago, entry, k - 1), AmortStage(inp, pago, entry, k);
      assert st.rows[..|entry.rows|] == prev.rows[..|entry.rows|];
      assert st.flujo[..|entry.flujo|] == prev.flujo[..|entry.flujo|];
    }
  }

  /** The flow of every amortising month is its negated total installment. */
  lemma {:induction false} AmortFlowIs(inp: SimInput, pago: real, entry: Stage, k: nat, j: nat)
    requires Aligned(entry) && j < k
    ensures var st := AmortStage(inp, pago, entry, k);
      st.flujo[|entry.rows| + j + 1] == -st.rows[|entry.rows| + j].cuotaTotal
  {
    if j < k - 1 {
      AmortFlowIs(inp, pago, entry, k - 1, j);
    }
  }

  /** The balance during grace: unchanged under `sin` and `parcial`,
      capitalised monthly under `total`. */
  lemma GraceBalance(inp: SimInput, k: nat)
    requires k <= GraceCount(inp)
    ensures GraceStage(inp, k).saldo
         == if inp.graciaTipo == Total then inp.principal * Pow(1.0 + inp.iMensual, k) else inp.principal
  {
    GraceBalanceCompounded(inp, k);
  }

  /** `s` with one month's interest at `i` added to it. */
  function Capitalise(s: real, i: real): real {
    s + s * i
  }

  /** `p` capitalised monthly over `n` months at `i`. */
  function Compounded(p: real, i: real, n: nat): real {
    p * Pow(1.0 + i, n)
  }

  lemma CompoundedZero(p: real, i: real)
    ensures Compounded(p, i, 0) == p
  {
  }

  lemma CompoundedStep(p: real, i: real, n: nat)
    requires n >= 1
    ensures Compounded(p, i, n) == Capitalise(Compounded(p, i, n - 1), i)
  {
    var x := Pow(1.0 + i, n - 1);
    assert Pow(1.0 + i, n) == (1.0 + i) * x;
    assert p * ((1.0 + i) * x) == p * x + p * x * i;
  }

  lemma {:induction false} GraceBalanceCompounded(inp: SimInput, k: nat)
    requires k <= GraceCount(inp)
    ensures GraceStage(inp, k).saldo
         == if inp.graciaTipo == Total then Compounded(inp.principal, inp.iMensual, k) else inp.principal
  {
    if k == 0 {
      CompoundedZero(inp.principal, inp.iMensual);
    } else {
      GraceBalanceCompounded(inp, k - 1);
      GraceSaldoStep(inp, k);
      if inp.graciaTipo == Total {
        CompoundedStep(inp.principal, inp.iMensual, k);
      }
    }
  }

  /** One grace month capitalises the balance under `total` and leaves it
      alone otherwise. */
  lemma GraceSaldoStep(inp: SimInput, k: nat)
    requires 1 <= k <= GraceCount(inp)
    ensures var s := GraceStage(inp, k - 1).saldo;
      GraceStage(inp, k).saldo == if inp.graciaTipo == Total then Capitalise(s, inp.iMensual) else s
  {
  }

  /** The balance entering amortisation is the principal, capitalised over the
      grace months under `total`. */
  lemma EntryBalance(inp: SimInput)
    ensures GraceExit(inp).saldo
         == if inp.graciaTipo == Total then inp.principal * Pow(1.0 + inp.iMensual, GraceCount(inp)) else inp.principal
  {
    GraceBalance(inp, GraceCount(inp));
  }

  lemma PlanPrefix(inp: SimInput, j: nat)
    requires j < GraceCount(inp)
    ensures Plan(inp).rows[j] == GraceExit(inp).rows[j]
    ensures Plan(inp).flujo[j + 1] == GraceExit(inp).flujo[j + 1]
  {
    var g := GraceExit(inp);
    var st := Plan(inp);
    AmortStageKeeps(inp, PagoConstante(inp), g, AmortCount(inp));
    assert st.rows[..|g.rows|][j] == st.rows[j];
    assert st.flujo[..|g.flujo|][j + 1] == st.flujo[j + 1];
  }

  // ------------------------------------------------------------ Row shapes

  /** With a non-negative grace count there are `graciaMeses + max(0, nMeses -
      graciaMeses)` rows numbered 1, 2, 3, ... in order. */
  lemma RowsAreMonths(inp: SimInput)
    requires inp.graciaMeses >= 0
    ensures var st := Plan(inp);
      && |st.rows| == inp.graciaMeses + (if inp.nMeses > inp.graciaMeses then inp.nMeses - inp.graciaMeses else 0)
      && forall j :: 0 <= j < |st.rows| ==> st.rows[j].mes == j + 1
  {
    var st := Plan(inp);
    forall j | 0 <= j < |st.rows|
      ensures st.rows[j].mes == j + 1
    {
      if j < GraceCount(inp) {
        PlanPrefix(inp, j);
        GraceRowIs(inp, GraceCount(inp), j);
      } else {
        AmortRowIs(inp, PagoConstante(inp), GraceExit(inp), AmortCount(inp), j - GraceCount(inp));
      }
    }
  }

  /** Under `sin` every grace row is all zero with the balance unchanged, and
      its flow is zero. */
  lemma SinGraceRows(inp: SimInput)
    requires inp.graciaTipo == Sin
    ensures var st := Plan(inp);
      forall j :: 0 <= j < GraceCount(inp) ==>
        && st.rows[j] == Row(j + 1, 0.0, 0.0, 0.0, 0.0, 0.0, 0.0, inp.principal)
        && st.flujo[j + 1] == 0.0
  {
    var st := Plan(inp);
    forall j | 0 <= j < GraceCount(inp)
      ensures st.rows[j] == Row(j + 1, 0.0, 0.0, 0.0, 0.0, 0.0, 0.0, inp.principal)
      ensures st.flujo[j + 1] == 0.0
    {
      UncapitalisedPlanRow(inp, j);
    }
  }

  /** Plan row `j` of the grace phase, as grace month `j + 1` on its opening balance. */
  lemma PlanGraceRow(inp: SimInput, j: nat)
    requires j < GraceCount(inp)
    ensures Plan(inp).rows[j] == GraceMonth(inp, j + 1, GraceStage(inp, j).saldo).0
    ensures Plan(inp).flujo[j + 1] == GraceMonth(inp, j + 1, GraceStage(inp, j).saldo).1
  {
    PlanPrefix(inp, j);
    GraceRowIs(inp, GraceCount(inp), j);
  }

  /** The shape of a `parcial` grace row on the principal: it pays interest and
      insurance plus the tax on them, amortises nothing, and leaves the
      balance at the principal; its flow is the negated total installment. */
  predicate ParcialShape(inp: SimInput, r: Row, flow: real) {
    && r.cuota == 0.0 && r.amortizacion == 0.0
    && r.saldo == inp.principal
    && r.interes == inp.principal * inp.iMensual
    && r.seguro == CalcSeguro(inp.seguro, inp.principal, inp.iMensual)
    && r.itf == (r.interes + r.seguro) * inp.itf
    && r.cuotaTotal == r.interes + r.seguro + r.itf
    && flow == -r.cuotaTotal
  }

  lemma ParcialMonth(inp: SimInput, m: int)
    requires inp.graciaTipo == Parcial
    ensures ParcialShape(inp, GraceMonth(inp, m, inp.principal).0, GraceMonth(inp, m, inp.principal).1)
  {
  }

  /** Under `sin` and `parcial` grace the balance stays at the principal, so
      grace row `j` is grace month `j + 1` on the principal. */
  lemma UncapitalisedPlanRow(inp: SimInput, j: nat)
    requires inp.graciaTipo != Total && j < GraceCount(inp)
    ensures Plan(inp).rows[j] == GraceMonth(inp, j + 1, inp.principal).0
    ensures Plan(inp).flujo[j + 1] == GraceMonth(inp, j + 1, inp.principal).1
  {
    PlanGraceRow(inp, j);
    GraceBalance(inp, j);
  }

  /** Every `parcial` grace row has the shape above. */
  lemma ParcialGraceRows(inp: SimInput)
    requires inp.graciaTipo == Parcial
    ensures var st := Plan(inp);
      forall j :: 0 <= j < GraceCount(inp) ==> ParcialShape(inp, st.rows[j], st.flujo[j + 1])
  {
    var st := Plan(inp);
    forall j | 0 <= j < GraceCount(inp)
      ensures ParcialShape(inp, st.rows[j], st.flujo[j + 1])
    {
      UncapitalisedPlanRow(inp, j);
      ParcialMonth(inp, j + 1);
    }
  }

  /** The shape of a `total` grace row on opening balance `s`: nothing is
      paid off and the interest is capitalised. The premium on `s` is taxed
      only when insurance is collected during total grace and the premium is
      positive; the row's total is premium plus tax when insurance is
      collected and 0 otherwise; the flow is zero unless the premium is
      collected and positive, in which case it is the premium plus its tax. */
  predicate TotalShape(inp: SimInput, s: real, r: Row, flow: real) {
    && r.cuota == 0.0 && r.amortizacion == 0.0
    && r.interes == s * inp.iMensual
    && r.saldo == s + r.interes
    && r.seguro == CalcSeguro(inp.seguro, s, inp.iMensual)
    && r.itf == (if Cobra(inp) && r.seguro > 0.0 then r.seguro * inp.itf else 0.0)
    && r.cuotaTotal == (if Cobra(inp) then r.seguro + r.itf else 0.0)
    && flow == if Cobra(inp) && r.seguro > 0.0 then -(r.seguro + r.seguro * inp.itf) else 0.0
  }

  lemma TotalMonth(inp: SimInput, m: int, s: real)
    requires inp.graciaTipo == Total
    ensures TotalShape(inp, s, GraceMonth(inp, m, s).0, GraceMonth(inp, m, s).1)
  {
  }

  /** Every `total` grace row has the shape above on the opening balance
      `principal·(1+i)^j`, and closes at `principal·(1+i)^(j+1)`. */
  lemma TotalPlanRow(inp: SimInput, j: nat)
    requires inp.graciaTipo == Total && j < GraceCount(inp)
    ensures TotalShape(inp, inp.principal * Pow(1.0 + inp.iMensual, j), Plan(inp).rows[j], Plan(inp).flujo[j + 1])
    ensures Plan(inp).rows[j].saldo == inp.principal * Pow(1.0 + inp.iMensual, j + 1)
  {
    PlanPrefix(inp, j);
    TotalGraceRow(inp, j);
  }

  lemma TotalGraceRow(inp: SimInput, j: nat)
    requires inp.graciaTipo == Total && j < GraceCount(inp)
    ensures TotalShape(inp, inp.principal * Pow(1.0 + inp.iMensual, j), GraceExit(inp).rows[j], GraceExit(inp).flujo[j + 1])
    ensures GraceExit(inp).rows[j].saldo == inp.principal * Pow(1.0 + inp.iMensual, j + 1)
  {
    TotalGraceRowAt(inp, j);
    GraceBalance(inp, j);
    TotalShapeCapitalised(inp, j, GraceStage(inp, j).saldo, GraceExit(inp).rows[j], GraceExit(inp).flujo[j + 1]);
  }

  lemma TotalShapeCapitalised(inp: SimInput, j: nat, s: real, r: Row, flow: real)
    requires TotalShape(inp, s, r, flow) && s == inp.principal * Pow(1.0 + inp.iMensual, j)
    ensures TotalShape(inp, inp.principal * Pow(1.0 + inp.iMensual, j), r, flow)
    ensures r.saldo == inp.principal * Pow(1.0 + inp.iMensual, j + 1)
  {
    CapitalisedOnce(inp.principal, 1.0 + inp.iMensual, j);
  }

  lemma TotalGraceRowAt(inp: SimInput, j: nat)
    requires inp.graciaTipo == Total && j < GraceCount(inp)
    ensures TotalShape(inp, GraceStage(inp, j).saldo, GraceExit(inp).rows[j], GraceExit(inp).flujo[j + 1])
  {
    GraceRowIs(inp, GraceCount(inp), j);
    TotalMonth(inp, j + 1, GraceStage(inp, j).saldo);
  }

  lemma CapitalisedOnce(p: real, q: real, j: nat)
    ensures p * Pow(q, j) + p * Pow(q, j) * (q - 1.0) == p * Pow(q, j + 1)
  {
    var x := Pow(q, j);
    assert Pow(q, j + 1) == q * x;
    assert p * x + p * x * (q - 1.0) == p * x * q;
  }

  /** The opening balance of plan row `j`. */
  function OpeningBalance(inp: SimInput, j: nat): real
    requires j < GraceCount(inp) + AmortCount(inp)
  {
    if j == GraceCount(inp) then GraceExit(inp).saldo
    else if j == 0 then inp.principal
    else Plan(inp).rows[j - 1].saldo
  }

  /** The shape of an amortising row on opening balance `b` with installment
      `pago`: the interest accrues on `b`, the rest of the installment (never
      less than zero) amortises the balance, and the insurance and the tax on
      installment plus insurance are added on top. */
  predicate AmortShape(inp: SimInput, pago: real, b: real, r: Row) {
    && r.cuota == pago
    && r.interes == b * inp.iMensual
    && r.amortizacion == Max0(pago - r.interes)
    && r.saldo == b - r.amortizacion
    && r.seguro == CalcSeguro(inp.seguro, b, inp.iMensual)
    && r.itf == (pago + r.seguro) * inp.itf
    && r.cuotaTotal == pago + r.seguro + r.itf
  }

  lemma AmortMonth(inp: SimInput, pago: real, k: int, b: real)
    ensures AmortShape(inp, pago, b, AmortRow(inp, pago, k, b))
  {
  }

  /** An amortising row never increases the balance. */
  lemma AmortShapeDecreases(inp: SimInput, pago: real, b: real, r: Row)
    requires AmortShape(inp, pago, b, r)
    ensures r.amortizacion >= 0.0 && r.saldo <= b
  {
  }

  lemma {:induction false} AmortStageRow(inp: SimInput, pago: real, entry: Stage, k: nat, j: nat)
    requires Aligned(entry) && j < k
    ensures AmortShape(inp, pago, AmortStage(inp, pago, entry, j).saldo, AmortStage(inp, pago, entry, k).rows[|entry.rows| + j])
  {
    AmortRowIs(inp, pago, entry, k, j);
    AmortMonth(inp, pago, j + 1, AmortStage(inp, pago, entry, j).saldo);
  }

  /** The balance after `j` amortising months is the closing balance of the
      last of them. */
  lemma {:induction false} AmortStageBalance(inp: SimInput, pago: real, entry: Stage, k: nat, j: nat)
    requires Aligned(entry) && 0 < j <= k
    ensures AmortStage(inp, pago, entry, j).saldo == AmortStage(inp, pago, entry, k).rows[|entry.rows| + j - 1].saldo
  {
    AmortRowIs(inp, pago, entry, k, j - 1);
    AmortRowIs(inp, pago, entry, j, j - 1);
  }

  /** Every amortising row of the plan pays the constant installment on its
      opening balance, and its flow is the negated total installment. */
  lemma AmortPlanRow(inp: SimInput, j: nat)
    requires GraceCount(inp) <= j < GraceCount(inp) + AmortCount(inp)
    ensures AmortShape(inp, PagoConstante(inp), OpeningBalance(inp, j), Plan(inp).rows[j])
    ensures Plan(inp).flujo[j + 1] == -Plan(inp).rows[j].cuotaTotal
  {
    var k := j - GraceCount(inp);
    var pago, g := PagoConstante(inp), GraceExit(inp);
    assert Plan(inp) == AmortStage(inp, pago, g, AmortCount(inp));
    AmortStageRowOpening(inp, pago, g, AmortCount(inp), k);
  }

  lemma AmortStageRowOpening(inp: SimInput, pago: real, entry: Stage, n: nat, k: nat)
    requires Aligned(entry) && k < n
    ensures var st := AmortStage(inp, pago, entry, n);
      && AmortShape(inp, pago, if k == 0 then entry.saldo else st.rows[|entry.rows| + k - 1].saldo, st.rows[|entry.rows| + k])
      && st.flujo[|entry.rows| + k + 1] == -st.rows[|entry.rows| + k].cuotaTotal
  {
    AmortStageRow(inp, pago, entry, n, k);
    AmortFlowIs(inp, pago, entry, n, k);
    if k > 0 {
      AmortStageBalance(inp, pago, entry, n, k);
    }
  }

  // ---------------------------------------------------------------- Flows

  /** A grace row whose flow differs from its negated total installment: under
      `total` grace with insurance collected, a negative premium is charged in
      the row but not in the flow. */
  predicate UncollectedRow(inp: SimInput, st: Stage, j: nat)
    requires j < |st.rows|
  {
    inp.graciaTipo == Total && Cobra(inp) && j < GraceCount(inp) && st.rows[j].seguro < 0.0
  }

  /** `flujo[0]` is the net disbursement, and `flujo[k]` is the negated total
      installment of row `k` except where the premium of a collected `total`
      grace month is negative: there the flow is zero and the row charges the
      premium. */
  lemma FlowsMatchInstallments(inp: SimInput)
    ensures var st := Plan(inp);
      && |st.flujo| == |st.rows| + 1
      && st.flujo[0] == inp.principal - inp.costosIniciales
      && forall k :: 1 <= k <= |st.rows| ==>
        if UncollectedRow(inp, st, k - 1)
        then st.flujo[k] == 0.0 && st.rows[k - 1].cuotaTotal == st.rows[k - 1].seguro
        else st.flujo[k] == -st.rows[k - 1].cuotaTotal
  {
    var st := Plan(inp);
    forall k | 1 <= k <= |st.rows|
      ensures if UncollectedRow(inp, st, k - 1)
        then st.flujo[k] == 0.0 && st.rows[k - 1].cuotaTotal == st.rows[k - 1].seguro
        else st.flujo[k] == -st.rows[k - 1].cuotaTotal
    {
      if k - 1 < GraceCount(inp) {
        PlanPrefix(inp, k - 1);
        GraceRowIs(inp, GraceCount(inp), k - 1);
      } else {
        AmortFlowIs(inp, PagoConstante(inp), GraceExit(inp), AmortCount(inp), k - 1 - GraceCount(inp));
      }
    }
  }

  /** With non-negative premiums every payment flow is the negated total
      installment of its row. */
  lemma FlowsAreNegatedInstallments(inp: SimInput)
    requires forall j :: 0 <= j < |Plan(inp).rows| ==> Plan(inp).rows[j].seguro >= 0.0
    ensures var st := Plan(inp);
      forall k :: 1 <= k <= |st.rows| ==> st.flujo[k] == -st.rows[k - 1].cuotaTotal
  {
    FlowsMatchInstallments(inp);
  }

  // ---------------------------------------------------------------- Totals

  /** Summing a column over two runs of rows. */
  lemma {:induction false} ColumnSumAppend(a: seq<Row>, b: seq<Row>, c: Column)
    ensures ColumnSum(a + b, c) == ColumnSum(a, c) + ColumnSum(b, c)
    decreases |b|
  {
    if |b| > 0 {
      var b' := b[..|b| - 1];
      assert (a + b)[..|a + b| - 1] == a + b';
      ColumnSumAppend(a, b', c);
    } else {
      assert a + b == a;
    }
  }

  /** Under `parcial` grace the grace months charge the principal's monthly
      interest `interes` once per month. */
  lemma ParcialGraceInterest(inp: SimInput, k: nat, interes: real)
    requires inp.graciaTipo == Parcial && k <= GraceCount(inp)
    requires interes == inp.principal * inp.iMensual
    ensures ColumnSum(GraceStage(inp, k).rows, InteresCol) == k as real * interes
  {
    ParcialRowsInterest(inp, k);
    ConstantInterest(GraceStage(inp, k).rows, interes, k);
  }

  /** Every row charges interest `x`. */
  predicate AllInterest(rows: seq<Row>, x: real) {
    forall j :: 0 <= j < |rows| ==> rows[j].interes == x
  }

  lemma ParcialRowsInterest(inp: SimInput, k: nat)
    requires inp.graciaTipo == Parcial && k <= GraceCount(inp)
    ensures AllInterest(GraceStage(inp, k).rows, inp.principal * inp.iMensual)
  {
    var rows := GraceStage(inp, k).rows;
    forall j | 0 <= j < |rows|
      ensures rows[j].interes == inp.principal * inp.iMensual
    {
      ParcialRowInterest(inp, k, j);
    }
  }

  lemma ParcialRowInterest(inp: SimInput, k: nat, j: nat)
    requires inp.graciaTipo == Parcial && j < k <= GraceCount(inp)
    ensures GraceStage(inp, k).rows[j].interes == inp.principal * inp.iMensual
  {
    GraceRowIs(inp, k, j);
    GraceBalance(inp, j);
    ParcialMonth(inp, j + 1);
  }

  /** Rows that all charge the same interest `x` total `x` per row. */
  lemma {:induction false} ConstantInterest(rows: seq<Row>, x: real, n: nat)
    requires AllInterest(rows, x) && |rows| == n
    ensures ColumnSum(rows, InteresCol) == n as real * x
  {
    if n > 0 {
      ConstantInterest(rows[..n - 1], x, n - 1);
    }
  }

  /** The total interest is the grace months' interest plus the amortising
      months' interest. */
  lemma InterestByPhase(inp: SimInput)
    ensures var out := GenerarPlan(inp);
      out.totInteres == ColumnSum(GraceExit(inp).rows, InteresCol)
                      + ColumnSum(out.rows[GraceCount(inp)..], InteresCol)
  {
    var rows := Plan(inp).rows;
    var g := GraceCount(inp);
    assert rows == rows[..g] + rows[g..];
    AmortStageKeeps(inp, PagoConstante(inp), GraceExit(inp), AmortCount(inp));
    assert rows[..g] == GraceExit(inp).rows;
    ColumnSumAppend(rows[..g], rows[g..], InteresCol);
  }

  /** `Pfinanciado` is the principal handed in, not the balance entering
      amortisation: under `total` grace with a positive rate and principal
      the financed balance is strictly larger. */
  lemma PfinanciadoIsPrincipal(inp: SimInput)
    ensures GenerarPlan(inp).Pfinanciado == inp.principal
    ensures inp.graciaTipo != Total ==> GenerarPlan(inp).Pfinanciado == GraceExit(inp).saldo
    ensures inp.graciaTipo == Total && inp.iMensual > 0.0 && inp.principal > 0.0 && inp.graciaMeses >= 1 ==>
      GenerarPlan(inp).Pfinanciado < GraceExit(inp).saldo
  {
    EntryBalance(inp);
    if inp.graciaTipo == Total && inp.iMensual > 0.0 && inp.principal > 0.0 && inp.graciaMeses >= 1 {
      TotalGraceCapitalises(inp);
    }
  }

  /** `total` grace with a positive rate and principal grows the balance. */
  lemma TotalGraceCapitalises(inp: SimInput)
    requires inp.graciaTipo == Total && inp.iMensual > 0.0 && inp.principal > 0.0 && inp.graciaMeses >= 1
    ensures GraceExit(inp).saldo > inp.principal
  {
    EntryBalance(inp);
    PowGreaterThanOne(1.0 + inp.iMensual, GraceCount(inp));
    GrowsBy(inp.principal, Pow(1.0 + inp.iMensual, GraceCount(inp)));
  }

  lemma GrowsBy(p: real, q: real)
    requires p > 0.0 && q > 1.0
    ensures p * q > p
  {
    assert p * q - p == p * (q - 1.0);
  }
}
