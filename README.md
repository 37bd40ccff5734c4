# RK4 prey-predator solver, modelled in Dafny

The repository integrates the Lotka-Volterra prey-predator equations with the
classical fixed-step fourth-order Runge-Kutta method. Its core is the function
`RK4(F, y0)`. It lays out a time grid `arange(0, 20, 0.1)` and preallocates a
table with one row per grid point. It writes `y0` into row 0. Then it fills row
`i+1` from row `i` with four stage evaluations of the right-hand side `F`. It
returns the table with the grid prepended as column 0. The right-hand side
shipped with the script is `F(tx, y)`, the Lotka-Volterra rates with
a = 2/3, b = 4/3, c = 1, d = 1.

The model has five modules:

- `Vectors` (vectors.dfy): states as `seq<real>`, plus the elementwise sum and
  scalar multiple that numpy supplies.
- `Grid` (grid.dfy): `np.arange` over the reals, with its length
  ceil((xf - x0) / h).
- `RungeKutta` (runge_kutta.dfy): the right-hand side as a function parameter,
  one step `StepRK4`, and the recursive row specification `Traj`.
- `Solver` (solver.dfy): the imperative table filler. `Solve` takes the grid
  as parameters and `RK4` fixes the script's constants. Both fill an
  `array2<real>` and are proved against `Traj`.
- `LotkaVolterra` (lotka_volterra.dfy): the shipped right-hand side, its rest
  points, and the fact that an extinct species stays extinct.

All arithmetic is over Dafny's exact `real`, so `0.1` means exactly 1/10.
The right-hand side is a partial function `(real, seq<real>) --> seq<real>`.
The integrator requires it to be defined on every state of the initial
state's dimension and to return a rate of that dimension (`PreservesDim`). The
Lotka-Volterra rates index `y[0]` and `y[1]`, so they qualify for dimension 2.

The time passed to the stages is kept as the code writes it. Step `i` calls
`F(i, ...)`, `F(i + h/2, ...)` and `F(i + h, ...)` with the raw loop index `i`.
Column 0, however, holds the grid time `x0 + i*h`. Two lemmas state this
discrepancy:

- `StageTimeMatchesGridIff`: the two times agree at every index only when
  x0 = 0 and h = 1.
- `HardCodedStageTimesDiffer`: on the script's grid the two times differ at
  every step after the first.

`TrajMatchesGridTimeTraj` shows the discrepancy is invisible for a right-hand
side that ignores time, as the Lotka-Volterra rates do.

Two further facts about the code shape the model. The table has ceil((xf - x0) / h) rows, the length that
`np.arange` gives. The code has no step-size, dimension or non-finite checks
and no error results, so the model has none either.

`StageTimeChangesTable` shows that the loop-index stage time does change the
table for a right-hand side that reads its time. With the rate equal to the
clock, y0 = [0] and h = 1/10, row 2 is 0.11 with the loop index and 0.02 with
the grid time.

## Model

| member | source | states |
|---|---|---|
| Vectors.Zeros | RK4-prey-predator.py:72-74 | the zero vector of dimension n, every component 0: the rate the Lotka-Volterra function returns at a rest point |
| Vectors.Add | RK4-prey-predator.py:47-50 | vector sum of equal-length states: same length, component c is the sum of the components c |
| Vectors.Scale | RK4-prey-predator.py:47-50 | scalar times vector: same length, component c multiplied by the scalar |
| Grid.Ceil | RK4-prey-predator.py:38 | the least integer k with k - 1 < q <= k (the length rule of arange) |
| Grid.GridLength | RK4-prey-predator.py:38 | the grid of a non-empty interval with positive step has at least one point |
| Grid.Arange | RK4-prey-predator.py:35-38 | the grid has ceil((xf - x0)/h) points; it starts at x0; point i is x0 + i*h; consecutive points differ by h; point i lies below xf exactly when i is an index of the grid |
| Grid.HardCodedGrid | RK4-prey-predator.py:35-38 | with x0 = 0, xf = 20, h = 0.1 the grid has 200 points, the last at 19.9 |
| RungeKutta.StageRates | RK4-prey-predator.py:46-49 | the four stage rates, for a right-hand side that preserves dimension, all have the state's dimension |
| RungeKutta.WeightedSlope | RK4-prey-predator.py:50 | component c is k1[c] + 2 k2[c] + 2 k3[c] + k4[c] |
| RungeKutta.StepRK4 | RK4-prey-predator.py:46-50 | the next state has the state's dimension, and component c is y[c] + h/6 (k1[c] + 2 k2[c] + 2 k3[c] + k4[c]) with the stages at t, t + h/2, t + h/2, t + h |
| RungeKutta.Traj | RK4-prey-predator.py:45-50 | every row of the table has exactly the dimension of y0 |
| RungeKutta.GridTimeTraj | RK4-prey-predator.py:45-50 | the same rows with steps taken at the grid time x0 + i*h: every row has the dimension of y0 |
| RungeKutta.StageTimeMatchesGridIff | RK4-prey-predator.py:38-49 | the loop index used as stage time equals the grid time x0 + i*h at every index if and only if x0 = 0 and h = 1 |
| RungeKutta.StepAtRestPoint | RK4-prey-predator.py:46-50 | a step from a zero of F returns the same state |
| RungeKutta.TrajAtRestPoint | RK4-prey-predator.py:45-50 | started at a zero of F, every row of the table equals y0 |
| RungeKutta.TrajOfZeroRhs | RK4-prey-predator.py:45-50 | with F identically zero, every row equals y0 |
| RungeKutta.StepConstantRate | RK4-prey-predator.py:50 | with a constant rate k the weights 1, 2, 2, 1 over 6 add exactly h*k in one step |
| RungeKutta.TrajConstantRate | RK4-prey-predator.py:45-50 | with a constant rate k, row j is y0 + (j*h) k |
| RungeKutta.StepIgnoringTime | RK4-prey-predator.py:46-50 | if F ignores time, a step gives the same state whatever time it is given |
| RungeKutta.ClockRate | RK4-prey-predator.py:59-63 | a right-hand side that reads its time argument (the comment at lines 59-63 allows F to depend on it): every component's rate is t, and the state's dimension is kept |
| RungeKutta.StepOfClockRate | RK4-prey-predator.py:46-50 | with the clock as rate a step moves every component by h*t + h*h/2, so its result depends on the stage time |
| RungeKutta.StageTimeChangesTable | RK4-prey-predator.py:45-50 | with the clock as rate, y0 = [0], h = 1/10 and x0 = 0, row 2 is 0.11 with the loop index as stage time and 0.02 with the grid time, so the two tables differ |
| RungeKutta.TrajMatchesGridTimeTraj | RK4-prey-predator.py:45-50 | if F ignores time, the table computed with the loop index as stage time equals the one computed with the grid time |
| Solver.StateRow | RK4-prey-predator.py:53-54 | the state part of a returned row: one component fewer than the table's width, component c is column c + 1 |
| Solver.GetRow | RK4-prey-predator.py:46-50 | reading `y[i, :]` gives a sequence equal to row i, component by component |
| Solver.SetRow | RK4-prey-predator.py:42 | writing `y[i, :] = v` (and `y[i+1] = ...`) sets row i to v and leaves every other entry unchanged |
| Solver.AppendColumn | RK4-prey-predator.py:53-54 | the returned table is a new array with the same rows, one column more; column 0 is the grid and column c is column c - 1 of the state table |
| Solver.TableOfTraj | RK4-prey-predator.py:41-54 | a table whose state columns hold Traj has row 0 equal to y0 and each row one step, taken at the loop index, from the row before |
| Solver.Solve | RK4-prey-predator.py:32-55 | the returned table is a new array the caller owns, with one row per grid point and len(y0) + 1 columns; column 0 is x0 + i*h; row 0 holds x0 and y0; row i+1 is one step, taken at time i, from row i; row i equals Traj(i) |
| Solver.RK4 | RK4-prey-predator.py:32-55 | with the hard-coded grid the table is a new array with 200 rows and len(y0) + 1 columns; column 0 of row i is i/10; row 0 holds y0; row i equals Traj(i) with h = 1/10 |
| Solver.HardCodedStageTimesDiffer | RK4-prey-predator.py:35-49 | on the hard-coded grid, the stage time i of step i differs from the row's grid time i/10 for every step 1 <= i <= 198 (the loop takes the steps 0 .. 198) |
| LotkaVolterra.Rates | RK4-prey-predator.py:65-74 | for a state with at least two components the rates are a two-component vector |
| LotkaVolterra.RatesPreserveDim | RK4-prey-predator.py:65-74 | the rates are defined on every two-species state and return a two-species rate |
| LotkaVolterra.RatesIgnoreTime | RK4-prey-predator.py:65-74 | the rates do not depend on the time argument |
| LotkaVolterra.PreyRateZeroIff | RK4-prey-predator.py:72 | the prey rate is zero if and only if there is no prey or the predators equal a/b |
| LotkaVolterra.PredatorRateZeroIff | RK4-prey-predator.py:73 | the predator rate is zero if and only if there are no predators or the prey equal d/c |
| LotkaVolterra.RestPointsIff | RK4-prey-predator.py:67-74 | a two-species state is a rest point if and only if it is (0, 0) or (d/c, a/b) = (1, 1/2) |
| LotkaVolterra.EquilibriumTrajectory | RK4-prey-predator.py:45-74 | started at (1, 1/2), every row of the table is (1, 1/2) |
| LotkaVolterra.StepKeepsPreyExtinct | RK4-prey-predator.py:46-72 | a step from a state without prey gives a state without prey |
| LotkaVolterra.StepKeepsPredatorExtinct | RK4-prey-predator.py:46-73 | a step from a state without predators gives a state without predators |
| LotkaVolterra.PreyExtinctionPersists | RK4-prey-predator.py:45-74 | if the prey start at zero, the prey are zero in every row |
| LotkaVolterra.PredatorExtinctionPersists | RK4-prey-predator.py:45-74 | if the predators start at zero, the predators are zero in every row |

## Left out

- Floating point: the model computes over exact reals. It does not model IEEE-754 rounding, the float value of 0.1, NaN or overflow. It also does not model the exact floating-point length of `np.arange`, which over the reals is ceil((xf - x0)/h).
- Plotting with matplotlib (lines 108-113) is user interface and is not modelled.
- The script's module-level run `y0 = [0.9, 0.9]; y = RK4(F, y0)` (lines 105-106) is script plumbing and is not modelled. The numpy and matplotlib imports are foreign libraries. `np.zeros`, `np.arange` and `np.append` are modelled by their plain meaning: the zero-initialised `array2` allocated in Solve, Arange and AppendColumn.
- Accuracy: the O(h^4) global error and the closed orbit of the Lotka-Volterra system are analytic statements about smooth solutions, not properties of the code, so they are not stated.
- The second-order example `F` (lines 86-89) sits inside a docstring, is not live code, and is not modelled.
- Solver.Solve: it requires x0 < xf and h > 0. On an empty grid the code fails when it writes `y0` into row 0 of an empty table, and h = 0 divides by zero in arange. A negative step with x0 > xf gives a descending grid on which the loop does run; that case is not modelled. The script's own constants always meet these requirements.
- Solver.RK4 and Solver.Solve: they require F to be defined on, and to preserve, the dimension of y0. numpy would broadcast or raise on other shapes, and that is not modelled.
