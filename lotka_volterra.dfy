/** The Lotka-Volterra prey-predator right-hand side `F(tx, y)` that the
    script integrates: y[0] is the prey population, y[1] the predators. */
module LotkaVolterra {
  import opened Vectors
  import opened RungeKutta

  /** The model's rate constants. */
  const A: real := 2.0 / 3.0
  const B: real := 4.0 / 3.0
  const C: real := 1.0
  const D: real := 1.0

  /** The two rates [y0 (a - b y1), y1 (c y0 - d)]; the time tx is not used. */
  function Rates(tx: real, y: seq<real>): (r: seq<real>)
    requires |y| >= 2
    ensures |r| == 2
  {
    var prey := y[0] * (A - B * y[1]);
    var predator := y[1] * (C * y[0] - D);
    [prey, predator]
  }

  /** The rates are a valid right-hand side for two-species states. */
  lemma RatesPreserveDim()
    ensures PreservesDim(Rates, 2)
  {
  }

  /** The rates do not depend on the time argument. */
  lemma RatesIgnoreTime()
    ensures IgnoresTime(Rates, 2)
  {
  }

  /** The prey rate vanishes exactly when there is no prey or the predators
      sit at a / b. */
  lemma PreyRateZeroIff(t: real, y: seq<real>)
    requires |y| >= 2
    ensures Rates(t, y)[0] == 0.0 <==> (y[0] == 0.0 || y[1] == A / B)
  {
    if y[0] != 0.0 && y[1] != A / B {
      assert A - B * y[1] != 0.0;
    }
  }

  /** The predator rate vanishes exactly when there are no predators or the
      prey sit at d / c. */
  lemma PredatorRateZeroIff(t: real, y: seq<real>)
    requires |y| >= 2
    ensures Rates(t, y)[1] == 0.0 <==> (y[1] == 0.0 || y[0] == D / C)
  {
  }

  /** The two rest points of the model: extinction of both species, and the
      coexistence point (d / c, a / b) = (1, 1/2). */
  lemma RestPointsIff(y: seq<real>)
    requires |y| == 2
    ensures RestPoint(Rates, y) <==> (y == [0.0, 0.0] || y == [1.0, 0.5])
  {
    RatesPreserveDim();
    PreyRateZeroIff(0.0, y);
    PredatorRateZeroIff(0.0, y);
    if y == [0.0, 0.0] || y == [1.0, 0.5] {
      forall t: real
        ensures Rates(t, y) == Zeros(2)
      {
      }
    }
  }

  /** Started at the coexistence point, the solver's table is constant. */
  lemma EquilibriumTrajectory(h: real, j: nat)
    ensures Traj(Rates, [1.0, 0.5], h, j) == [1.0, 0.5]
  {
    RestPointsIff([1.0, 0.5]);
    TrajAtRestPoint(Rates, [1.0, 0.5], h, j);
  }

  /** With no prey, every stage of a step has zero prey rate, so the step
      keeps the prey at zero. */
  lemma StepKeepsPreyExtinct(t: real, y: seq<real>, h: real)
    requires |y| == 2 && y[0] == 0.0
    ensures StepRK4(Rates, t, y, h)[0] == 0.0
  {
    RatesPreserveDim();
    var k := StageRates(Rates, t, y, h);
    assert k.k1[0] == 0.0;
    assert Add(y, Scale(h / 2.0, k.k1))[0] == 0.0;
    assert k.k2[0] == 0.0;
    assert Add(y, Scale(h / 2.0, k.k2))[0] == 0.0;
    assert k.k3[0] == 0.0;
    assert Add(y, Scale(h, k.k3))[0] == 0.0;
    assert k.k4[0] == 0.0;
  }

  /** With no predators, every stage of a step has zero predator rate, so the
      step keeps the predators at zero. */
  lemma StepKeepsPredatorExtinct(t: real, y: seq<real>, h: real)
    requires |y| == 2 && y[1] == 0.0
    ensures StepRK4(Rates, t, y, h)[1] == 0.0
  {
    RatesPreserveDim();
    var k := StageRates(Rates, t, y, h);
    assert k.k1[1] == 0.0;
    assert Add(y, Scale(h / 2.0, k.k1))[1] == 0.0;
    assert k.k2[1] == 0.0;
    assert Add(y, Scale(h / 2.0, k.k2))[1] == 0.0;
    assert k.k3[1] == 0.0;
    assert Add(y, Scale(h, k.k3))[1] == 0.0;
    assert k.k4[1] == 0.0;
  }

  /** Prey that start extinct stay extinct in every row of the table. */
  lemma {:induction false} PreyExtinctionPersists(y0: seq<real>, h: real, j: nat)
    requires |y0| == 2 && y0[0] == 0.0
    ensures Traj(Rates, y0, h, j)[0] == 0.0
  {
    if j > 0 {
      PreyExtinctionPersists(y0, h, j - 1);
      StepKeepsPreyExtinct((j - 1) as real, Traj(Rates, y0, h, j - 1), h);
    }
  }

  /** Predators that start extinct stay extinct in every row of the table. */
  lemma {:induction false} PredatorExtinctionPersists(y0: seq<real>, h: real, j: nat)
    requires |y0| == 2 && y0[1] == 0.0
    ensures Traj(Rates, y0, h, j)[1] == 0.0
  {
    if j > 0 {
      PredatorExtinctionPersists(y0, h, j - 1);
      StepKeepsPredatorExtinct((j - 1) as real, Traj(Rates, y0, h, j - 1), h);
    }
  }
}
