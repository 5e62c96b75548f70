/** Present value of a monthly cash-flow vector and its internal rate of
    return: Newton's method from a guess, with bisection on [-0.9, 5] as the
    fallback. */
module Cashflows {
  import opened Wrappers
  import opened Powers

  const Tol: real := 0.00000001
  const MaxIter: nat := 200
  /** Newton abandons an iterate at or below this rate or above `NewtonCeil`. */
  const NewtonFloor: real := -0.9999
  const NewtonCeil: real := 10.0
  /** The bracket searched by bisection. */
  const BracketLo: real := -0.9
  const BracketHi: real := 5.0

  function Abs(x: real): real {
    if x < 0.0 then -x else x
  }

  function Sum(xs: seq<real>): real {
    if |xs| == 0 then 0.0 else xs[0] + Sum(xs[1..])
  }

  /** The accumulator of `npv`'s left fold after the flows before index `t`. */
  function NpvFold(rate: real, cfs: seq<real>, t: nat, acc: real): real
    requires 1.0 + rate != 0.0 && t <= |cfs|
    decreases |cfs| - t
  {
    if t == |cfs| then acc
    else NpvFold(rate, cfs, t + 1, acc + cfs[t] / Pow(1.0 + rate, t))
  }

  /** `npv(rate, cfs)`: flow `t` discounted by `(1 + rate)^t`. */
  function Npv(rate: real, cfs: seq<real>): real
    requires 1.0 + rate != 0.0
  {
    NpvFold(rate, cfs, 0, 0.0)
  }

  /** The present value as a sum over the flows, written independently of the fold. */
  function DiscountedSum(rate: real, cfs: seq<real>): real
    requires 1.0 + rate != 0.0
  {
    if |cfs| == 0 then 0.0
    else DiscountedSum(rate, cfs[..|cfs| - 1]) + Discounted(cfs[|cfs| - 1], rate, |cfs| - 1)
  }

  /** A flow `v` at month `t` brought back to month 0. */
  function Discounted(v: real, rate: real, t: nat): real
    requires 1.0 + rate != 0.0
  {
    v / Pow(1.0 + rate, t)
  }

  /** The derivative of `Npv` in the rate, as the source folds it. */
  function DnpvFold(rate: real, cfs: seq<real>, t: nat, acc: real): real
    requires 1.0 + rate != 0.0 && t <= |cfs|
    decreases |cfs| - t
  {
    if t == |cfs| then acc
    else DnpvFold(rate, cfs, t + 1, acc + (-(t as real) * cfs[t]) / Pow(1.0 + rate, t + 1))
  }

  function Dnpv(rate: real, cfs: seq<real>): real
    requires 1.0 + rate != 0.0
  {
    DnpvFold(rate, cfs, 0, 0.0)
  }

  lemma {:induction false} NpvFoldIsSum(rate: real, cfs: seq<real>, t: nat, acc: real)
    requires 1.0 + rate != 0.0 && t <= |cfs|
    ensures NpvFold(rate, cfs, t, acc) == acc + DiscountedSum(rate, cfs) - DiscountedSum(rate, cfs[..t])
    decreases |cfs| - t
  {
    if t == |cfs| {
      assert cfs[..t] == cfs;
    } else {
      NpvFoldIsSum(rate, cfs, t + 1, acc + cfs[t] / Pow(1.0 + rate, t));
      assert cfs[..t + 1][..t] == cfs[..t];
    }
  }

  /** The fold computes the discounted sum. */
  lemma NpvIsDiscountedSum(rate: real, cfs: seq<real>)
    requires 1.0 + rate != 0.0
    ensures Npv(rate, cfs) == DiscountedSum(rate, cfs)
  {
    NpvFoldIsSum(rate, cfs, 0, 0.0);
  }

  /** Appending a flow adds its value discounted by its position. */
  lemma NpvAppend(rate: real, cfs: seq<real>, x: real)
    requires 1.0 + rate != 0.0
    ensures Npv(rate, cfs + [x]) == Npv(rate, cfs) + x / Pow(1.0 + rate, |cfs|)
  {
    NpvIsDiscountedSum(rate, cfs + [x]);
    NpvIsDiscountedSum(rate, cfs);
    assert (cfs + [x])[..|cfs|] == cfs;
  }

  lemma DivSum(a: real, b: real, rate: real)
    requires 1.0 + rate != 0.0
    ensures a / (1.0 + rate) + b / (1.0 + rate) == (a + b) / (1.0 + rate)
  {
    // Naming the divisor lets the solver treat it as one atom; with the
    // compound divisor it does not find the sum of fractions.
    var q := 1.0 + rate;
    assert a / q + b / q == (a + b) / q;
  }

  /** Discounting one month further divides by `1 + rate` once more. */
  lemma DiscountedShift(v: real, rate: real, t: nat)
    requires 1.0 + rate != 0.0
    ensures Discounted(v, rate, t + 1) == Discounted(v, rate, t) / (1.0 + rate)
  {
    PowSucc(1.0 + rate, t);
    DivTwice(v, Pow(1.0 + rate, t), Pow(1.0 + rate, t + 1), rate);
  }

  lemma DivTwice(v: real, p: real, p': real, rate: real)
    requires p != 0.0 && 1.0 + rate != 0.0 && p' == (1.0 + rate) * p
    ensures v / p' == (v / p) / (1.0 + rate)
  {
    var q := 1.0 + rate;
    assert v / (q * p) == (v / p) / q;
  }

  lemma {:induction false} DiscountedSumCons(rate: real, x: real, rest: seq<real>)
    requires 1.0 + rate != 0.0
    ensures DiscountedSum(rate, [x] + rest) == x + DiscountedSum(rate, rest) / (1.0 + rate)
    decreases |rest|
  {
    if |rest| == 0 {
      assert [x] + rest == [x];
      assert [x][..0] == [];
      assert Pow(1.0 + rate, 0) == 1.0;
      assert DiscountedSum(rate, [x]) == DiscountedSum(rate, []) + Discounted(x, rate, 0) == x;
    } else {
      var init, y := rest[..|rest| - 1], rest[|rest| - 1];
      var t := |init|;
      var whole := [x] + rest;
      assert whole[..|whole| - 1] == [x] + init;
      assert whole[|whole| - 1] == y;
      DiscountedSumCons(rate, x, init);
      DiscountedShift(y, rate, t);
      var d, dy := DiscountedSum(rate, init), Discounted(y, rate, t);
      assert DiscountedSum(rate, whole) == DiscountedSum(rate, [x] + init) + Discounted(y, rate, t + 1);
      assert DiscountedSum(rate, rest) == d + dy;
      DivSum(d, dy, rate);
    }
  }

  /** The first flow is not discounted; the rest is discounted one more month. */
  lemma NpvFirstFlow(rate: real, x: real, rest: seq<real>)
    requires 1.0 + rate != 0.0
    ensures Npv(rate, [x]) == x
    ensures Npv(rate, [x] + rest) == x + Npv(rate, rest) / (1.0 + rate)
  {
    NpvIsDiscountedSum(rate, [x] + rest);
    NpvIsDiscountedSum(rate, rest);
    DiscountedSumCons(rate, x, rest);
    NpvIsDiscountedSum(rate, [x]);
    DiscountedSumCons(rate, x, []);
    assert [x] + [] == [x];
  }

  /** At a zero rate the present value is the plain sum of the flows. */
  lemma {:induction false} NpvAtZeroRate(cfs: seq<real>)
    ensures Npv(0.0, cfs) == Sum(cfs)
    decreases |cfs|
  {
    if |cfs| > 0 {
      NpvAtZeroRate(cfs[1..]);
      assert [cfs[0]] + cfs[1..] == cfs;
      NpvFirstFlow(0.0, cfs[0], cfs[1..]);
    } else {
      assert Npv(0.0, cfs) == 0.0;
    }
  }

  /** Non-negative flows have a present value of at least the first flow at
      every rate above -1. */
  lemma {:induction false} NpvOfNonNegativeFlows(rate: real, cfs: seq<real>)
    requires rate > -1.0 && |cfs| > 0
    requires forall t :: 0 <= t < |cfs| ==> cfs[t] >= 0.0
    ensures Npv(rate, cfs) >= cfs[0]
    decreases |cfs|
  {
    NpvIsDiscountedSum(rate, cfs);
    if |cfs| == 1 {
      assert DiscountedSum(rate, cfs) == DiscountedSum(rate, []) + cfs[0] / Pow(1.0 + rate, 0);
    } else {
      var init := cfs[..|cfs| - 1];
      NpvOfNonNegativeFlows(rate, init);
      NpvIsDiscountedSum(rate, init);
      var p := Pow(1.0 + rate, |cfs| - 1);
      assert cfs[|cfs| - 1] / p >= 0.0;
    }
  }

  // ---------------------------------------------------------------- Newton

  datatype NewtonExit = Converged(root: real) | Stopped

  /** The Newton loop returns the current iterate `r`. At the pole `1 + r = 0`
      the source's `f(r)` is finite only with at most one flow (it is then 0
      or `cfs[0]`), so only then can it be accepted. */
  predicate Accepts(cfs: seq<real>, r: real) {
    if 1.0 + r == 0.0 then |cfs| == 0 || (|cfs| == 1 && Abs(cfs[0]) < Tol)
    else Abs(Npv(r, cfs)) < Tol
  }

  /** The iterate after `r`, or `None` when the loop breaks at `r`: the
      derivative is zero (at the pole it is not even finite), or the step leaves
      (-0.9999, 10]. */
  function NewtonStep(cfs: seq<real>, r: real): (next: Option<real>)
    ensures next.Some? ==> NewtonFloor < next.value <= NewtonCeil
  {
    if 1.0 + r == 0.0 then None
    else
      var dfr := Dnpv(r, cfs);
      if dfr == 0.0 then None
      else
        var r' := r - Npv(r, cfs) / dfr;
        if r' <= NewtonFloor || r' > NewtonCeil then None else Some(r')
  }

  /** The Newton phase run from iterate `r` at iteration `i`. */
  function Newton(cfs: seq<real>, r: real, i: nat): NewtonExit
    requires i <= MaxIter
    decreases MaxIter - i
  {
    if i == MaxIter then Stopped
    else if Accepts(cfs, r) then Converged(r)
    else
      match NewtonStep(cfs, r)
      case None => Stopped
      case Some(r') => Newton(cfs, r', i + 1)
  }

  /** The `k`-th Newton iterate from `guess`, or `None` once the loop has
      returned or broken before reaching it. */
  function Iterate(cfs: seq<real>, guess: real, k: nat): Option<real> {
    if k == 0 then Some(guess)
    else
      match Iterate(cfs, guess, k - 1)
      case None => None
      case Some(r) => if Accepts(cfs, r) then None else NewtonStep(cfs, r)
  }

  // ------------------------------------------------------------- Bisection

  datatype BisectExit = Hit(mid: real) | Exhausted(lo: real, hi: real, flo: real, fhi: real)

  /** The bisection loop from bracket `[lo, hi]` at iteration `i`. */
  function Bisect(cfs: seq<real>, lo: real, hi: real, flo: real, fhi: real, i: nat): BisectExit
    requires BracketLo <= lo < hi <= BracketHi && i <= MaxIter
    decreases MaxIter - i
  {
    if i == MaxIter then Exhausted(lo, hi, flo, fhi)
    else
      var mid := (lo + hi) / 2.0;
      var fmid := Npv(mid, cfs);
      if Abs(fmid) < Tol then Hit(mid)
      else if flo * fmid <= 0.0 then Bisect(cfs, lo, mid, flo, fmid, i + 1)
      else Bisect(cfs, mid, hi, fmid, fhi, i + 1)
  }

  /** The rate the bisection phase returns. */
  function BisectRate(e: BisectExit): real {
    match e
    case Hit(mid) => mid
    case Exhausted(lo, hi, _, _) => (lo + hi) / 2.0
  }

  /** `irr(cfs, guess)`: the monthly internal rate of return. A rate the
      Newton phase returns has a present value within the tolerance. */
  function Irr(cfs: seq<real>, guess: real): (r: real)
    ensures Newton(cfs, guess, 0).Converged? ==> Accepts(cfs, r)
  {
    match Newton(cfs, guess, 0)
    case Converged(root) =>
      NewtonConvergedAccepts(cfs, guess, 0);
      root
    case Stopped =>
      var flo := Npv(BracketLo, cfs);
      var fhi := Npv(BracketHi, cfs);
      if flo * fhi > 0.0 then guess
      else BisectRate(Bisect(cfs, BracketLo, BracketHi, flo, fhi, 0))
  }

  // ------------------------------------------------------------ Properties

  lemma {:induction false} NewtonFollowsIterates(cfs: seq<real>, guess: real, k: nat)
    requires k <= MaxIter && Iterate(cfs, guess, k).Some?
    ensures Newton(cfs, guess, 0) == Newton(cfs, Iterate(cfs, guess, k).value, k)
  {
    if k > 0 {
      NewtonFollowsIterates(cfs, guess, k - 1);
    }
  }

  /** The first Newton iterate whose present value is within the tolerance is
      the rate returned. */
  lemma IrrReturnsAcceptedIterate(cfs: seq<real>, guess: real, k: nat)
    requires k < MaxIter && Iterate(cfs, guess, k).Some?
    requires Accepts(cfs, Iterate(cfs, guess, k).value)
    ensures Newton(cfs, guess, 0) == Converged(Iterate(cfs, guess, k).value)
    ensures Irr(cfs, guess) == Iterate(cfs, guess, k).value
  {
    NewtonFollowsIterates(cfs, guess, k);
  }

  /** The Newton phase gives up, and the solve falls through to bisection, when
      a reached iterate has a zero derivative or steps out of (-0.9999, 10], or
      when all 200 iterations ran. */
  lemma NewtonStopsEarly(cfs: seq<real>, guess: real, k: nat)
    requires k <= MaxIter && Iterate(cfs, guess, k).Some?
    requires var r := Iterate(cfs, guess, k).value;
      k == MaxIter
      || (!Accepts(cfs, r)
          && (1.0 + r == 0.0
              || Dnpv(r, cfs) == 0.0
              || r - Npv(r, cfs) / Dnpv(r, cfs) <= NewtonFloor
              || r - Npv(r, cfs) / Dnpv(r, cfs) > NewtonCeil))
    ensures Newton(cfs, guess, 0) == Stopped
  {
    NewtonFollowsIterates(cfs, guess, k);
  }

  /** A converged Newton phase returns an accepted iterate. */
  lemma {:induction false} NewtonConvergedAccepts(cfs: seq<real>, r: real, i: nat)
    requires i <= MaxIter && Newton(cfs, r, i).Converged?
    ensures Accepts(cfs, Newton(cfs, r, i).root)
    decreases MaxIter - i
  {
    if !Accepts(cfs, r) {
      NewtonConvergedAccepts(cfs, NewtonStep(cfs, r).value, i + 1);
    }
  }

  /** Without a sign change on [-0.9, 5] after Newton gave up, the guess is
      returned as if it were the rate: no failure is signalled. */
  lemma IrrWithoutSignChange(cfs: seq<real>, guess: real)
    requires Newton(cfs, guess, 0) == Stopped
    requires Npv(BracketLo, cfs) * Npv(BracketHi, cfs) > 0.0
    ensures Irr(cfs, guess) == guess
  {
  }

  lemma SignChangeMoves(flo: real, fhi: real, fmid: real)
    requires flo * fhi <= 0.0 && flo * fmid > 0.0
    ensures fmid * fhi <= 0.0
  {
    if flo > 0.0 {
      assert fmid > 0.0 && fhi <= 0.0;
    } else {
      assert flo < 0.0;
      assert fmid < 0.0 && fhi >= 0.0;
    }
  }

  /** The bisection invariant: the bracket lies inside [-0.9, 5], the
      endpoint values are the present values there, and they change sign. */
  ghost predicate Bracketed(cfs: seq<real>, lo: real, hi: real, flo: real, fhi: real) {
    && BracketLo <= lo < hi <= BracketHi
    && flo == Npv(lo, cfs) && fhi == Npv(hi, cfs)
    && flo * fhi <= 0.0
  }

  /** One bisection step keeps the invariant and halves the width. */
  lemma BisectStep(cfs: seq<real>, lo: real, hi: real, flo: real, fhi: real)
    requires Bracketed(cfs, lo, hi, flo, fhi)
    ensures var mid := (lo + hi) / 2.0;
      var fmid := Npv(mid, cfs);
      && lo < mid < hi && mid - lo == (hi - lo) / 2.0 && hi - mid == (hi - lo) / 2.0
      && (flo * fmid <= 0.0 ==> Bracketed(cfs, lo, mid, flo, fmid))
      && (flo * fmid > 0.0 ==> Bracketed(cfs, mid, hi, fmid, fhi))
  {
    var mid := (lo + hi) / 2.0;
    var fmid := Npv(mid, cfs);
    if flo * fmid > 0.0 {
      SignChangeMoves(flo, fhi, fmid);
    }
  }

  /** One iteration of `Bisect` that neither hits nor exhausts moves to the
      half `[lo', hi']` that keeps the sign change. */
  lemma BisectNext(cfs: seq<real>, lo: real, hi: real, flo: real, fhi: real, i: nat,
                   mid: real, fmid: real, lo': real, hi': real, flo': real, fhi': real)
    requires BracketLo <= lo < hi <= BracketHi && i < MaxIter
    requires mid == (lo + hi) / 2.0 && fmid == Npv(mid, cfs) && Abs(fmid) >= Tol
    requires if flo * fmid <= 0.0 then lo' == lo && hi' == mid && flo' == flo && fhi' == fmid
             else lo' == mid && hi' == hi && flo' == fmid && fhi' == fhi
    ensures BracketLo <= lo' < hi' <= BracketHi
    ensures Bisect(cfs, lo, hi, flo, fhi, i) == Bisect(cfs, lo', hi', flo', fhi', i + 1)
  {
  }

  /** `w` halved `k` times. */
  function Halved(w: real, k: nat): real {
    if k == 0 then w else Halved(w, k - 1) / 2.0
  }

  lemma {:induction false} HalvedFirst(w: real, h: real, k: nat, k': nat)
    requires h == w / 2.0 && k' == k + 1
    ensures Halved(h, k) == Halved(w, k')
  {
    if k > 0 {
      HalvedFirst(w, h, k - 1, k);
    }
  }

  /** The bracket invariant of bisection: the endpoints stay inside [lo, hi],
      keep their values and a sign change, and the width halves each iteration.
      The result is a point within tolerance, or the last bracket. */
  lemma BisectKeepsBracket(cfs: seq<real>, lo: real, hi: real, flo: real, fhi: real, i: nat)
    requires Bracketed(cfs, lo, hi, flo, fhi) && i <= MaxIter
    ensures var e := Bisect(cfs, lo, hi, flo, fhi, i);
      && (e.Hit? ==> lo < e.mid < hi && Abs(Npv(e.mid, cfs)) < Tol)
      && (e.Exhausted? ==>
          && lo <= e.lo < e.hi <= hi
          && Bracketed(cfs, e.lo, e.hi, e.flo, e.fhi)
          && e.hi - e.lo == Halved(hi - lo, MaxIter - i))
  {
    BisectHitInside(cfs, lo, hi, flo, fhi, i);
    BisectExhaustedBracket(cfs, lo, hi, flo, fhi, i);
  }

  /** A point bisection accepts lies inside the bracket and is within tolerance. */
  lemma {:induction false} BisectHitInside(cfs: seq<real>, lo: real, hi: real, flo: real, fhi: real, i: nat)
    requires Bracketed(cfs, lo, hi, flo, fhi) && i <= MaxIter
    ensures var e := Bisect(cfs, lo, hi, flo, fhi, i);
      e.Hit? ==> lo < e.mid < hi && Abs(Npv(e.mid, cfs)) < Tol
    decreases MaxIter - i
  {
    if i < MaxIter {
      var mid := (lo + hi) / 2.0;
      var fmid := Npv(mid, cfs);
      BisectStep(cfs, lo, hi, flo, fhi);
      if Abs(fmid) < Tol {
        assert Bisect(cfs, lo, hi, flo, fhi, i) == Hit(mid);
      } else if flo * fmid <= 0.0 {
        assert Bisect(cfs, lo, hi, flo, fhi, i) == Bisect(cfs, lo, mid, flo, fmid, i + 1);
        BisectHitInside(cfs, lo, mid, flo, fmid, i + 1);
      } else {
        assert Bisect(cfs, lo, hi, flo, fhi, i) == Bisect(cfs, mid, hi, fmid, fhi, i + 1);
        BisectHitInside(cfs, mid, hi, fmid, fhi, i + 1);
      }
    }
  }

  /** The last bracket of an exhausted bisection lies inside the first, keeps
      the sign change, and is the first halved once per remaining iteration. */
  lemma {:induction false} BisectExhaustedBracket(cfs: seq<real>, lo: real, hi: real, flo: real, fhi: real, i: nat)
    requires Bracketed(cfs, lo, hi, flo, fhi) && i <= MaxIter
    ensures var e := Bisect(cfs, lo, hi, flo, fhi, i);
      e.Exhausted? ==>
        && lo <= e.lo < e.hi <= hi
        && Bracketed(cfs, e.lo, e.hi, e.flo, e.fhi)
        && e.hi - e.lo == Halved(hi - lo, MaxIter - i)
    decreases MaxIter - i
  {
    if i < MaxIter {
      var mid := (lo + hi) / 2.0;
      var fmid := Npv(mid, cfs);
      BisectStep(cfs, lo, hi, flo, fhi);
      if Abs(fmid) >= Tol {
        var e := Bisect(cfs, lo, hi, flo, fhi, i);
        if flo * fmid <= 0.0 {
          assert e == Bisect(cfs, lo, mid, flo, fmid, i + 1);
          BisectExhaustedBracket(cfs, lo, mid, flo, fmid, i + 1);
          if e.Exhausted? {
            HalvedFirst(hi - lo, mid - lo, MaxIter - (i + 1), MaxIter - i);
          }
        } else {
          assert e == Bisect(cfs, mid, hi, fmid, fhi, i + 1);
          BisectExhaustedBracket(cfs, mid, hi, fmid, fhi, i + 1);
          if e.Exhausted? {
            HalvedFirst(hi - lo, hi - mid, MaxIter - (i + 1), MaxIter - i);
          }
        }
      }
    }
  }

  /** A rate found by bisection lies strictly inside (-0.9, 5): either its
      present value is within tolerance, or it is the midpoint of a bracket
      with a sign change whose width is 5.9 / 2^200. */
  lemma IrrByBisection(cfs: seq<real>, guess: real)
    requires Newton(cfs, guess, 0) == Stopped
    requires Npv(BracketLo, cfs) * Npv(BracketHi, cfs) <= 0.0
    ensures BracketLo < Irr(cfs, guess) < BracketHi
    ensures var e := Bisect(cfs, BracketLo, BracketHi, Npv(BracketLo, cfs), Npv(BracketHi, cfs), 0);
      || (e.Hit? && Abs(Npv(Irr(cfs, guess), cfs)) < Tol)
      || (&& e.Exhausted?
          && Irr(cfs, guess) == (e.lo + e.hi) / 2.0
          && Bracketed(cfs, e.lo, e.hi, e.flo, e.fhi)
          && e.hi - e.lo == Halved(BracketHi - BracketLo, MaxIter))
  {
    var flo, fhi := Npv(BracketLo, cfs), Npv(BracketHi, cfs);
    var e := Bisect(cfs, BracketLo, BracketHi, flo, fhi, 0);
    assert !(flo * fhi > 0.0);
    assert Irr(cfs, guess) == BisectRate(e);
    BisectKeepsBracket(cfs, BracketLo, BracketHi, flo, fhi, 0);
  }

  /** A converged Newton phase started above -1 ends above -1. */
  lemma {:induction false} NewtonRootAboveMinusOne(cfs: seq<real>, r: real, i: nat)
    requires i <= MaxIter && r > -1.0 && Newton(cfs, r, i).Converged?
    ensures Newton(cfs, r, i).root > -1.0
    decreases MaxIter - i
  {
    if !Accepts(cfs, r) {
      NewtonRootAboveMinusOne(cfs, NewtonStep(cfs, r).value, i + 1);
    }
  }

  /** From a guess above -1 the rate returned is above -1, so it has an
      effective annual equivalent. */
  lemma IrrAboveMinusOne(cfs: seq<real>, guess: real)
    requires guess > -1.0
    ensures Irr(cfs, guess) > -1.0
  {
    if Newton(cfs, guess, 0).Converged? {
      NewtonRootAboveMinusOne(cfs, guess, 0);
    } else if Npv(BracketLo, cfs) * Npv(BracketHi, cfs) <= 0.0 {
      IrrByBisection(cfs, guess);
    }
  }

  /** Where no rate above -1 has a small present value, Newton never converges. */
  lemma {:induction false} NewtonStopsWithoutSmallValue(cfs: seq<real>, r: real, i: nat)
    requires i <= MaxIter && r > -1.0
    requires forall x :: x > -1.0 ==> Abs(Npv(x, cfs)) >= Tol
    ensures Newton(cfs, r, i) == Stopped
    decreases MaxIter - i
  {
    if i < MaxIter {
      match NewtonStep(cfs, r)
      case None =>
      case Some(r') => NewtonStopsWithoutSmallValue(cfs, r', i + 1);
    }
  }

  /** Flows that never turn negative, with a first flow of at least the
      tolerance, have no rate of return; the solver still returns the guess. */
  lemma IrrOfNonNegativeFlows(cfs: seq<real>, guess: real)
    requires |cfs| > 0 && cfs[0] >= Tol && guess > -1.0
    requires forall t :: 0 <= t < |cfs| ==> cfs[t] >= 0.0
    ensures Irr(cfs, guess) == guess
  {
    forall x | x > -1.0
      ensures Abs(Npv(x, cfs)) >= Tol
    {
      NpvOfNonNegativeFlows(x, cfs);
    }
    NewtonStopsWithoutSmallValue(cfs, guess, 0);
    NpvOfNonNegativeFlows(BracketLo, cfs);
    NpvOfNonNegativeFlows(BracketHi, cfs);
    var flo, fhi := Npv(BracketLo, cfs), Npv(BracketHi, cfs);
    assert flo * fhi > 0.0;
  }

  // ------------------------------------------------------ The loops themselves

  /** The Newton loop of `irr`: at most 200 iterations from `guess`. */
  method NewtonLoop(cfs: seq<real>, guess: real) returns (exit: NewtonExit, steps: nat)
    ensures exit == Newton(cfs, guess, 0)
    ensures steps <= MaxIter
    ensures exit.Converged? ==> Accepts(cfs, exit.root)
  {
    var r := guess;
    steps := 0;
    while steps < MaxIter
      invariant steps <= MaxIter
      invariant Newton(cfs, guess, 0) == Newton(cfs, r, steps)
    {
      if 1.0 + r == 0.0 {
        // f(r) is finite only with at most one flow; df(r) never is
        if Accepts(cfs, r) {
          return Converged(r), steps;
        }
        break;
      }
      var fr := Npv(r, cfs);
      var dfr := Dnpv(r, cfs);
      if Abs(fr) < Tol {
        return Converged(r), steps;
      }
      if dfr == 0.0 {
        break;
      }
      var step := fr / dfr;
      var next := r - step;
      if next <= NewtonFloor || next > NewtonCeil {
        break;
      }
      r := next;
      steps := steps + 1;
    }
    exit := Stopped;
  }

  /** The bisection loop of `irr` on [-0.9, 5], entered with a sign change. */
  method BisectLoop(cfs: seq<real>) returns (r: real, steps: nat)
    requires Npv(BracketLo, cfs) * Npv(BracketHi, cfs) <= 0.0
    ensures r == BisectRate(Bisect(cfs, BracketLo, BracketHi, Npv(BracketLo, cfs), Npv(BracketHi, cfs), 0))
    ensures steps <= MaxIter
    ensures BracketLo < r < BracketHi
  {
    var lo, hi := BracketLo, BracketHi;
    var flo, fhi := Npv(lo, cfs), Npv(hi, cfs);
    steps := 0;
    while steps < MaxIter
      invariant steps <= MaxIter
      invariant Bracketed(cfs, lo, hi, flo, fhi)
      invariant hi - lo == Halved(BracketHi - BracketLo, steps)
      invariant Bisect(cfs, BracketLo, BracketHi, Npv(BracketLo, cfs), Npv(BracketHi, cfs), 0)
             == Bisect(cfs, lo, hi, flo, fhi, steps)
    {
      ghost var lo0, hi0, flo0, fhi0 := lo, hi, flo, fhi;
      var mid := (lo + hi) / 2.0;
      var fmid := Npv(mid, cfs);
      BisectStep(cfs, lo, hi, flo, fhi);
      if Abs(fmid) < Tol {
        return mid, steps + 1;
      }
      if flo * fmid <= 0.0 {
        hi, fhi := mid, fmid;
      } else {
        lo, flo := mid, fmid;
      }
      BisectNext(cfs, lo0, hi0, flo0, fhi0, steps, mid, fmid, lo, hi, flo, fhi);
      steps := steps + 1;
    }
    r := (lo + hi) / 2.0;
  }

  /** `irr` as the source runs it: at most 200 Newton iterations, then at most
      200 bisection iterations, returning the rate `Irr` defines. */
  method ComputeIrr(cfs: seq<real>, guess: real) returns (r: real, newtonSteps: nat, bisectSteps: nat)
    ensures r == Irr(cfs, guess)
    ensures newtonSteps <= MaxIter && bisectSteps <= MaxIter
    ensures bisectSteps > 0 ==> BracketLo < r < BracketHi
  {
    var exit;
    exit, newtonSteps := NewtonLoop(cfs, guess);
    bisectSteps := 0;
    if exit.Converged? {
      return exit.root, newtonSteps, bisectSteps;
    }
    var flo, fhi := Npv(BracketLo, cfs), Npv(BracketHi, cfs);
    if flo * fhi > 0.0 {
      // no sign change: the guess is returned
      return guess, newtonSteps, bisectSteps;
    }
    r, bisectSteps := BisectLoop(cfs);
  }
}
