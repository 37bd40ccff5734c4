/** One step of the classical fourth-order Runge-Kutta method, and the
    sequence of states the solver's loop produces from it. */
module RungeKutta {
  import opened Vectors
  import opened Grid

  /** A right-hand side: maps a time and a state to the state's rate of change.
      It may be partial (the Lotka-Volterra rates index y[0] and y[1]). */
  type Rhs = (real, seq<real>) --> seq<real>

  /** F is defined on every state of dimension n and returns a rate of that dimension. */
  ghost predicate PreservesDim(F: Rhs, n: nat)
  {
    forall t: real, y: seq<real> :: |y| == n ==> F.requires(t, y) && |F(t, y)| == n
  }

  /** F does not depend on its time argument on states of dimension n. */
  ghost predicate IgnoresTime(F: Rhs, n: nat)
  {
    PreservesDim(F, n) &&
    forall s: real, t: real, y: seq<real> :: |y| == n ==> F(s, y) == F(t, y)
  }

  /** F returns the same rate k on every state of dimension n. */
  ghost predicate ConstantRate(F: Rhs, n: nat, k: seq<real>)
  {
    |k| == n && PreservesDim(F, n) &&
    forall t: real, y: seq<real> :: |y| == n ==> F(t, y) == k
  }

  /** y is an equilibrium of F: the rate there is zero at every time. */
  ghost predicate RestPoint(F: Rhs, y: seq<real>)
  {
    PreservesDim(F, |y|) &&
    forall t: real :: F(t, y) == Zeros(|y|)
  }

  /** The four slopes of one step from (t, y) with step size h. */
  datatype Stages = Stages(k1: seq<real>, k2: seq<real>, k3: seq<real>, k4: seq<real>)

  /** The stage evaluations: at t, twice at t + h/2 and at t + h. */
  function StageRates(F: Rhs, t: real, y: seq<real>, h: real): (k: Stages)
    requires PreservesDim(F, |y|)
    ensures |k.k1| == |y| && |k.k2| == |y| && |k.k3| == |y| && |k.k4| == |y|
  {
    var k1 := F(t, y);
    var k2 := F(t + h / 2.0, Add(y, Scale(h / 2.0, k1)));
    var k3 := F(t + h / 2.0, Add(y, Scale(h / 2.0, k2)));
    var k4 := F(t + h, Add(y, Scale(h, k3)));
    Stages(k1, k2, k3, k4)
  }

  /** The weighted slope k1 + 2*k2 + 2*k3 + k4, componentwise. */
  function WeightedSlope(k: Stages): (s: seq<real>)
    requires |k.k2| == |k.k1| && |k.k3| == |k.k1| && |k.k4| == |k.k1|
    ensures |s| == |k.k1|
    ensures forall c :: 0 <= c < |s| ==> s[c] == k.k1[c] + 2.0 * k.k2[c] + 2.0 * k.k3[c] + k.k4[c]
  {
    var s1 := Add(k.k1, Scale(2.0, k.k2));
    var s2 := Add(s1, Scale(2.0, k.k3));
    Add(s2, k.k4)
  }

  /** y + h/6 * (k1 + 2*k2 + 2*k3 + k4): the next state, of the same dimension,
      each component moved by h/6 times the weighted sum of the four slopes. */
  function StepRK4(F: Rhs, t: real, y: seq<real>, h: real): (r: seq<real>)
    requires PreservesDim(F, |y|)
    ensures |r| == |y|
    ensures var k := StageRates(F, t, y, h);
      forall c :: 0 <= c < |y| ==>
        r[c] == y[c] + h / 6.0 * (k.k1[c] + 2.0 * k.k2[c] + 2.0 * k.k3[c] + k.k4[c])
  {
    var k := StageRates(F, t, y, h);
    var w := WeightedSlope(k);
    Add(y, Scale(h / 6.0, w))
  }

  /** Row j of the solver's state table: y0, then each row one step from the
      previous one, the step being taken at the loop index j - 1 used as time. */
  function Traj(F: Rhs, y0: seq<real>, h: real, j: nat): (r: seq<real>)
    requires PreservesDim(F, |y0|)
    ensures |r| == |y0|
    decreases j
  {
    if j == 0 then y0 else StepRK4(F, (j - 1) as real, Traj(F, y0, h, j - 1), h)
  }

  /** The same recursion with the step taken at the grid time x0 + (j - 1) * h. */
  function GridTimeTraj(F: Rhs, y0: seq<real>, x0: real, h: real, j: nat): (r: seq<real>)
    requires PreservesDim(F, |y0|)
    ensures |r| == |y0|
    decreases j
  {
    if j == 0 then y0 else StepRK4(F, GridTime(x0, h, j - 1), GridTimeTraj(F, y0, x0, h, j - 1), h)
  }

  /** The loop index equals the grid time x0 + i*h at every index exactly when
      x0 = 0 and h = 1. */
  lemma StageTimeMatchesGridIff(x0: real, h: real)
    ensures (forall i: nat :: GridTime(x0, h, i) == i as real) <==> (x0 == 0.0 && h == 1.0)
  {
    if forall i: nat :: GridTime(x0, h, i) == i as real {
      assert GridTime(x0, h, 0) == 0.0;
      assert GridTime(x0, h, 1) == 1.0;
    }
  }

  /** At a rest point all four stages vanish, so a step stays put. */
  lemma StepAtRestPoint(F: Rhs, t: real, y: seq<real>, h: real)
    requires RestPoint(F, y)
    ensures StepRK4(F, t, y, h) == y
  {
    var n := |y|;
    var z := Zeros(n);
    var k := StageRates(F, t, y, h);
    ScaleZeros(h / 2.0, n);
    ScaleZeros(h, n);
    ScaleZeros(2.0, n);
    AddZeros(y);
    assert k.k1 == z;
    assert k.k2 == F(t + h / 2.0, y) == z;
    assert k.k3 == F(t + h / 2.0, y) == z;
    assert k.k4 == F(t + h, y) == z;
    AddZeros(z);
    ScaleZeros(h / 6.0, n);
  }

  /** Started at a rest point, every row of the table equals the start. */
  lemma {:induction false} TrajAtRestPoint(F: Rhs, y0: seq<real>, h: real, j: nat)
    requires RestPoint(F, y0)
    ensures Traj(F, y0, h, j) == y0
  {
    if j > 0 {
      TrajAtRestPoint(F, y0, h, j - 1);
      StepAtRestPoint(F, (j - 1) as real, y0, h);
    }
  }

  /** With a right-hand side that is identically zero, every row equals y0. */
  lemma TrajOfZeroRhs(F: Rhs, y0: seq<real>, h: real, j: nat)
    requires ConstantRate(F, |y0|, Zeros(|y0|))
    ensures Traj(F, y0, h, j) == y0
  {
    TrajAtRestPoint(F, y0, h, j);
  }

  /** The weights 1, 2, 2, 1 over 6 sum to one: with a constant rate k a step
      adds exactly h * k. */
  lemma StepConstantRate(F: Rhs, t: real, y: seq<real>, h: real, k: seq<real>)
    requires ConstantRate(F, |y|, k)
    ensures StepRK4(F, t, y, h) == Add(y, Scale(h, k))
  {
    var s := StageRates(F, t, y, h);
    assert s.k1 == k;
    assert s.k2 == k;
    assert s.k3 == k;
    assert s.k4 == k;
    forall c | 0 <= c < |y|
      ensures StepRK4(F, t, y, h)[c] == Add(y, Scale(h, k))[c]
    {
      calc {
        StepRK4(F, t, y, h)[c];
        y[c] + h / 6.0 * (k[c] + 2.0 * k[c] + 2.0 * k[c] + k[c]);
        y[c] + h * k[c];
      }
    }
  }

  /** The time covered by j steps of size h. */
  function Elapsed(j: nat, h: real): (t: real)
  {
    (j as real) * h
  }

  /** With a constant rate k, row j is y0 + (j * h) * k. */
  lemma {:induction false} TrajConstantRate(F: Rhs, y0: seq<real>, h: real, k: seq<real>, j: nat)
    requires ConstantRate(F, |y0|, k)
    ensures Traj(F, y0, h, j) == Add(y0, Scale(Elapsed(j, h), k))
  {
    if j == 0 {
      ScaleByZero(k);
      AddZeros(y0);
    } else {
      var prev := Traj(F, y0, h, j - 1);
      TrajConstantRate(F, y0, h, k, j - 1);
      StepConstantRate(F, (j - 1) as real, prev, h, k);
      AddScaledTwice(y0, k, Elapsed(j - 1, h), h);
      assert Elapsed(j - 1, h) + h == Elapsed(j, h);
    }
  }

  /** A step does not depend on its time when the right-hand side ignores time. */
  lemma StepIgnoringTime(F: Rhs, s: real, t: real, y: seq<real>, h: real)
    requires IgnoresTime(F, |y|)
    ensures StepRK4(F, s, y, h) == StepRK4(F, t, y, h)
  {
    var ks := StageRates(F, s, y, h);
    var kt := StageRates(F, t, y, h);
    assert ks.k1 == kt.k1;
    assert ks.k2 == kt.k2;
    assert ks.k3 == kt.k3;
    assert ks.k4 == kt.k4;
  }

  /** When F ignores time, using the loop index as the stage time gives the same
      table as using the grid time: the discrepancy is then invisible. */
  lemma {:induction false} TrajMatchesGridTimeTraj(F: Rhs, y0: seq<real>, x0: real, h: real, j: nat)
    requires IgnoresTime(F, |y0|)
    ensures Traj(F, y0, h, j) == GridTimeTraj(F, y0, x0, h, j)
  {
    if j > 0 {
      TrajMatchesGridTimeTraj(F, y0, x0, h, j - 1);
      StepIgnoringTime(F, (j - 1) as real, GridTime(x0, h, j - 1), Traj(F, y0, h, j - 1), h);
    }
  }

  /** A right-hand side that is the clock itself: every component's rate is t. */
  function ClockRate(t: real, y: seq<real>): (r: seq<real>)
    ensures |r| == |y|
    ensures forall c :: 0 <= c < |r| ==> r[c] == t
  {
    seq(|y|, c => t)
  }

  /** With the clock as rate, a step moves every component by h*t + h*h/2, so
      the step's result depends on the time it is given. */
  lemma StepOfClockRate(t: real, y: seq<real>, h: real)
    ensures PreservesDim(ClockRate, |y|)
    ensures forall c :: 0 <= c < |y| ==> StepRK4(ClockRate, t, y, h)[c] == y[c] + h * t + h * h / 2.0
  {
    var k := StageRates(ClockRate, t, y, h);
    forall c | 0 <= c < |y|
      ensures StepRK4(ClockRate, t, y, h)[c] == y[c] + h * t + h * h / 2.0
    {
      assert k.k1[c] == t && k.k2[c] == t + h / 2.0 && k.k3[c] == t + h / 2.0 && k.k4[c] == t + h;
      calc {
        StepRK4(ClockRate, t, y, h)[c];
        y[c] + h / 6.0 * (t + 2.0 * (t + h / 2.0) + 2.0 * (t + h / 2.0) + (t + h));
        y[c] + h * t + h * h / 2.0;
      }
    }
  }

  /** For a right-hand side that reads its time, taking the loop index as the
      stage time changes the table: with the clock as rate, y0 = [0] and
      h = 1/10 on a grid from 0, row 2 is 0.11 with the loop index but 0.02
      with the grid time. */
  lemma StageTimeChangesTable()
    ensures PreservesDim(ClockRate, 1)
    ensures Traj(ClockRate, [0.0], 0.1, 2) == [0.11]
    ensures GridTimeTraj(ClockRate, [0.0], 0.0, 0.1, 2) == [0.02]
    ensures Traj(ClockRate, [0.0], 0.1, 2) != GridTimeTraj(ClockRate, [0.0], 0.0, 0.1, 2)
  {
    StepOfClockRate(0.0, [0.0], 0.1);
    var row1 := Traj(ClockRate, [0.0], 0.1, 1);
    assert row1 == [0.005];
    assert GridTimeTraj(ClockRate, [0.0], 0.0, 0.1, 1) == [0.005];
    assert GridTime(0.0, 0.1, 1) == 0.1;
    StepOfClockRate(1.0, row1, 0.1);
    StepOfClockRate(0.1, row1, 0.1);
    assert Traj(ClockRate, [0.0], 0.1, 2)[0] == 0.11;
    assert GridTimeTraj(ClockRate, [0.0], 0.0, 0.1, 2)[0] == 0.02;
  }
}
