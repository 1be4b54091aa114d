/**
  The two-consumer exchange economy of the inaugural project (`MarketModel`):
  its fixed parameters and the Cobb-Douglas demands of consumers A and B.
 */
module Exchange {

  /** The parameter bag `self.par`, plus the numeraire price `self.p2`. */
  datatype Params = Params(
    alpha: real, beta: real,
    w1A: real, w2A: real, w1B: real, w2B: real,
    w1: real, w2: real,
    p2: real, N1: int, N2: int)

  /** The parameters `__init__` sets: preferences 1/3 and 2/3, A's endowment
      (0.8, 0.3), B holding the rest, and the totals. */
  function Init(): (par: Params)
    ensures par.w1B == 1.0 - par.w1A && par.w2B == 1.0 - par.w2A
    ensures par.w1 == 1.0 && par.w2 == 1.0
    ensures Admissible(par)
  {
    var w1A := 0.8;
    var w2A := 0.3;
    var w1B := 1.0 - w1A;
    var w2B := 1.0 - w2A;
    Params(1.0 / 3.0, 2.0 / 3.0, w1A, w2A, w1B, w2B, w1A + w1B, w2A + w2B, 1.0, 10, 5)
  }

  /** Preference shares strictly between 0 and 1 and positive endowments. */
  predicate Admissible(par: Params)
  {
    && 0.0 < par.alpha < 1.0 && 0.0 < par.beta < 1.0
    && 0.0 < par.w1A && 0.0 < par.w2A && 0.0 < par.w1B && 0.0 < par.w2B
  }

  /** The totals are the sums of the two endowments. */
  predicate Totals(par: Params)
  {
    par.w1 == par.w1A + par.w1B && par.w2 == par.w2A + par.w2B
  }

  /** A bundle `(x1, x2)`. */
  datatype Bundle = Bundle(x1: real, x2: real)

  /** The value of an endowment at prices p1, p2: the consumer's income. */
  function Income(p1: real, p2: real, w1: real, w2: real): real
  {
    p1 * w1 + p2 * w2
  }

  /** `demand_A(p1, p2)`: A spends share alpha of its income on good 1 and the
      rest on good 2, so the bundle costs exactly the endowment's value. */
  function DemandA(par: Params, p1: real, p2: real): (x: Bundle)
    requires p1 != 0.0 && p2 != 0.0
    ensures p1 * x.x1 == par.alpha * Income(p1, p2, par.w1A, par.w2A)
    ensures p2 * x.x2 == (1.0 - par.alpha) * Income(p1, p2, par.w1A, par.w2A)
  {
    Bundle(par.alpha * (p1 * par.w1A + p2 * par.w2A) / p1,
           (1.0 - par.alpha) * (p1 * par.w1A + p2 * par.w2A) / p2)
  }

  /** `demand_B(p1, p2)`: the same with share beta and B's endowment. */
  function DemandB(par: Params, p1: real, p2: real): (x: Bundle)
    requires p1 != 0.0 && p2 != 0.0
    ensures p1 * x.x1 == par.beta * Income(p1, p2, par.w1B, par.w2B)
    ensures p2 * x.x2 == (1.0 - par.beta) * Income(p1, p2, par.w1B, par.w2B)
  {
    Bundle(par.beta * (p1 * par.w1B + p2 * par.w2B) / p1,
           (1.0 - par.beta) * (p1 * par.w1B + p2 * par.w2B) / p2)
  }

  /** A's demand exhausts its budget: p1*x1 + p2*x2 = p1*w1A + p2*w2A. */
  lemma BudgetA(par: Params, p1: real, p2: real)
    requires p1 != 0.0 && p2 != 0.0
    ensures var x := DemandA(par, p1, p2);
      p1 * x.x1 + p2 * x.x2 == Income(p1, p2, par.w1A, par.w2A)
  {
    var x := DemandA(par, p1, p2);
    var i := Income(p1, p2, par.w1A, par.w2A);
    assert p1 * x.x1 + p2 * x.x2 == par.alpha * i + (1.0 - par.alpha) * i;
  }

  /** B's demand exhausts its budget: p1*x1 + p2*x2 = p1*w1B + p2*w2B. */
  lemma BudgetB(par: Params, p1: real, p2: real)
    requires p1 != 0.0 && p2 != 0.0
    ensures var x := DemandB(par, p1, p2);
      p1 * x.x1 + p2 * x.x2 == Income(p1, p2, par.w1B, par.w2B)
  {
    var x := DemandB(par, p1, p2);
    var i := Income(p1, p2, par.w1B, par.w2B);
    assert p1 * x.x1 + p2 * x.x2 == par.beta * i + (1.0 - par.beta) * i;
  }

  /** Walras' law: at any prices the value of total demand equals the value of
      the total endowment. */
  lemma Walras(par: Params, p1: real, p2: real)
    requires p1 != 0.0 && p2 != 0.0
    requires Totals(par)
    ensures var a := DemandA(par, p1, p2);
      var b := DemandB(par, p1, p2);
      p1 * (a.x1 + b.x1) + p2 * (a.x2 + b.x2) == p1 * par.w1 + p2 * par.w2
  {
    var a := DemandA(par, p1, p2);
    var b := DemandB(par, p1, p2);
    BudgetA(par, p1, p2);
    BudgetB(par, p1, p2);
    assert p1 * (a.x1 + b.x1) + p2 * (a.x2 + b.x2)
        == (p1 * a.x1 + p2 * a.x2) + (p1 * b.x1 + p2 * b.x2);
    assert Income(p1, p2, par.w1A, par.w2A) + Income(p1, p2, par.w1B, par.w2B)
        == p1 * (par.w1A + par.w1B) + p2 * (par.w2A + par.w2B);
  }

  /** At positive prices and admissible parameters both consumers demand a
      strictly positive amount of both goods. */
  lemma DemandsPositive(par: Params, p1: real, p2: real)
    requires p1 > 0.0 && p2 > 0.0
    requires Admissible(par)
    ensures DemandA(par, p1, p2).x1 > 0.0 && DemandA(par, p1, p2).x2 > 0.0
    ensures DemandB(par, p1, p2).x1 > 0.0 && DemandB(par, p1, p2).x2 > 0.0
  {
  }
}
