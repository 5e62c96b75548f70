/** `simular`: the financed principal is the sale price less the down payment
    and the bonuses, never below zero; the quoted annual rate becomes the
    monthly rate; everything else passes to the engine unchanged. */
module Sim {
  import opened Wrappers
  import opened Powers
  import opened Schedule
  import Rates
  import Payoff

  datatype Moneda = PEN | USD

  /** A government or lender bonus (BTP, BBP, Bono Verde, ...). */
  datatype Bono = Bono(nombre: string, monto: real)

  /** The request; an absent `capitalizacion` or `bonos` is `None`, and a
      missing entry of `bonos` is `None`. */
  datatype SimRequest = SimRequest(
    moneda: Moneda,
    tipoTasa: Rates.TipoTasa,
    tasaValor: real,
    capitalizacion: Option<int>,
    plazoMeses: int,
    graciaTipo: GraceType,
    graciaMeses: int,
    precioVenta: real,
    cuotaInicial: real,
    bonos: Option<seq<Option<Bono>>>,
    itf: real,
    costosIniciales: real,
    seguro: SeguroDesgravamen,
    cobraSeguroEnGraciaTotal: Option<bool>)

  /** The engine's output together with the financed principal. */
  datatype SimResponse = SimResponse(plan: SimOutput, principalFinanciado: real)

  /** One bonus's contribution: its amount, or zero for a missing entry. */
  function BonoMonto(b: Option<Bono>): real {
    match b
    case Some(bono) => bono.monto
    case None => 0.0
  }

  /** The bonuses summed left to right: a list with no bonus in it totals 0,
      and bonuses that are never negative never total less than 0. */
  function BonosTotal(bonos: seq<Option<Bono>>): (t: real)
    ensures (forall k :: 0 <= k < |bonos| ==> bonos[k].None?) ==> t == 0.0
    ensures (forall k :: 0 <= k < |bonos| ==> BonoMonto(bonos[k]) >= 0.0) ==> t >= 0.0
  {
    if |bonos| == 0 then 0.0 else BonosTotal(bonos[..|bonos| - 1]) + BonoMonto(bonos[|bonos| - 1])
  }

  /** Summing two lists of bonuses. */
  lemma {:induction false} BonosTotalAppend(a: seq<Option<Bono>>, b: seq<Option<Bono>>)
    ensures BonosTotal(a + b) == BonosTotal(a) + BonosTotal(b)
    decreases |b|
  {
    if |b| > 0 {
      var b' := b[..|b| - 1];
      assert (a + b)[..|a + b| - 1] == a + b';
      BonosTotalAppend(a, b');
    } else {
      assert a + b == a;
    }
  }

  /** A missing entry adds nothing to the bonuses, wherever it sits. */
  lemma MissingBonoCountsZero(a: seq<Option<Bono>>, b: seq<Option<Bono>>)
    ensures BonosTotal(a + [None] + b) == BonosTotal(a + b)
  {
    BonosTotalAppend(a + [None], b);
    BonosTotalAppend(a, b);
    assert (a + [None])[..|a + [None]| - 1] == a;
  }

  /** The bonuses of the request; absent means none. */
  function BonosOf(req: SimRequest): seq<Option<Bono>> {
    req.bonos.GetOr([])
  }

  /** The capitalisations a year; absent means the default of twelve. */
  function CapitalizacionOf(req: SimRequest): int {
    req.capitalizacion.GetOr(Rates.DefaultMCap)
  }

  /** The financed principal: the sale price less the down payment and the
      bonuses, or zero when they cover the price. */
  function Principal(req: SimRequest): (p: real)
    ensures p >= 0.0
    ensures p >= req.precioVenta - req.cuotaInicial - BonosTotal(BonosOf(req))
    ensures p == 0.0 || p == req.precioVenta - req.cuotaInicial - BonosTotal(BonosOf(req))
  {
    var rest := req.precioVenta - req.cuotaInicial - BonosTotal(BonosOf(req));
    if rest > 0.0 then rest else 0.0
  }

  /** The quoted rate converts to a monthly rate. */
  ghost predicate Convertible(req: SimRequest) {
    Rates.Convertible(req.tipoTasa, req.tasaValor, CapitalizacionOf(req))
  }

  /** The input handed to `generarPlan`. Its monthly rate grows one unit over
      twelve months exactly as the quoted rate does over a year. */
  ghost function EngineInput(req: SimRequest): (inp: SimInput)
    requires Convertible(req)
    ensures inp.principal == Principal(req)
    ensures inp.iMensual > -1.0
    ensures Pow(1.0 + inp.iMensual, 12) == Rates.AnnualFactor(req.tipoTasa, req.tasaValor, CapitalizacionOf(req))
    ensures inp.nMeses == req.plazoMeses && inp.graciaMeses == req.graciaMeses
    ensures inp.graciaTipo == req.graciaTipo && inp.itf == req.itf && inp.seguro == req.seguro
    ensures inp.costosIniciales == req.costosIniciales
    ensures inp.cobraSeguroEnGraciaTotal == req.cobraSeguroEnGraciaTotal
  {
    SimInput(
      principal := Principal(req),
      nMeses := req.plazoMeses,
      iMensual := Rates.ToMonthlyRate(req.tipoTasa, req.tasaValor, CapitalizacionOf(req)),
      graciaMeses := req.graciaMeses,
      graciaTipo := req.graciaTipo,
      itf := req.itf,
      seguro := req.seguro,
      costosIniciales := req.costosIniciales,
      cobraSeguroEnGraciaTotal := req.cobraSeguroEnGraciaTotal)
  }

  /** `simular(req)`. */
  ghost function Simular(req: SimRequest): (resp: SimResponse)
    requires Convertible(req)
    ensures resp.principalFinanciado == resp.plan.Pfinanciado >= 0.0
    ensures resp.plan.desembolsoNeto == resp.principalFinanciado - req.costosIniciales
    ensures |resp.plan.rows| == GraceCount(EngineInput(req)) + AmortCount(EngineInput(req))
  {
    var inp := EngineInput(req);
    SimResponse(GenerarPlan(inp), Principal(req))
  }

  /** The engine's rate is the monthly equivalent of the quoted rate. */
  lemma EngineRateIsMonthlyEquivalent(req: SimRequest)
    requires Convertible(req)
    ensures EngineInput(req).iMensual == Rates.ToMonthlyRate(req.tipoTasa, req.tasaValor, CapitalizacionOf(req))
    ensures Rates.ToEffectiveAnnualFromMonthly(EngineInput(req).iMensual)
         == Rates.AnnualFactor(req.tipoTasa, req.tasaValor, CapitalizacionOf(req)) - 1.0
  {
  }

  /** Absent bonuses are no bonuses. */
  lemma AbsentBonosAreNone(req: SimRequest)
    requires req.bonos.None?
    ensures Principal(req) == Principal(req.(bonos := Some([])))
  {
  }

  /** An absent capitalisation is the default of twelve. */
  lemma AbsentCapitalizacionIsTwelve(req: SimRequest)
    requires req.capitalizacion.None? && Convertible(req)
    ensures Convertible(req.(capitalizacion := Some(12)))
    ensures Simular(req) == Simular(req.(capitalizacion := Some(12)))
  {
    assert EngineInput(req) == EngineInput(req.(capitalizacion := Some(12)));
  }

  /** The currency is a label: it changes nothing in the response. */
  lemma MonedaIsIgnored(req: SimRequest, moneda: Moneda)
    requires Convertible(req)
    ensures Convertible(req.(moneda := moneda))
    ensures Simular(req.(moneda := moneda)) == Simular(req)
  {
    assert EngineInput(req.(moneda := moneda)) == EngineInput(req);
  }

  /** With a non-negative quoted rate and at least one amortising month, the
      simulated loan is repaid exactly: its last balance is zero. */
  lemma SimulatedLoanIsRepaid(req: SimRequest)
    requires Convertible(req) && req.tasaValor >= 0.0 && req.plazoMeses > req.graciaMeses
    ensures var rows := Simular(req).plan.rows;
      |rows| > 0 && rows[|rows| - 1].saldo == 0.0
  {
    var inp := EngineInput(req);
    Rates.MonthlyRateNonNegative(req.tipoTasa, req.tasaValor, CapitalizacionOf(req));
    Payoff.LoanIsRepaid(inp);
  }
}
