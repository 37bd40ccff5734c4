/** The table-filling solver `RK4(F, y0)`: a time grid, a preallocated state
    table whose rows are written one after another by Runge-Kutta steps, and
    the returned table with the grid prepended as column 0. */
module Solver {
  import opened Vectors
  import opened Grid
  import opened RungeKutta

  /** The state part (columns 1 ..) of row i of a solution table. */
  function StateRow(a: array2<real>, i: nat): (r: seq<real>)
    reads a
    requires i < a.Length0 && 1 <= a.Length1
    ensures |r| == a.Length1 - 1
    ensures forall c :: 0 <= c < |r| ==> r[c] == a[i, c + 1]
  {
    seq(a.Length1 - 1, c requires 0 <= c < a.Length1 - 1 reads a => a[i, c + 1])
  }

  /** `y[i, :]`: a copy of row i of the table. */
  method GetRow(y: array2<real>, i: nat) returns (row: seq<real>)
    requires i < y.Length0
    ensures |row| == y.Length1
    ensures forall c :: 0 <= c < y.Length1 ==> row[c] == y[i, c]
  {
    row := [];
    for c := 0 to y.Length1
      invariant |row| == c
      invariant forall d :: 0 <= d < c ==> row[d] == y[i, d]
    {
      row := row + [y[i, c]];
    }
  }

  /** `y[i, :] = v`: overwrite row i, leaving every other row as it was. */
  method SetRow(y: array2<real>, i: nat, v: seq<real>)
    requires i < y.Length0 && |v| == y.Length1
    modifies y
    ensures forall j, c :: 0 <= j < y.Length0 && 0 <= c < y.Length1 ==>
      y[j, c] == if j == i then v[c] else old(y[j, c])
  {
    for c := 0 to y.Length1
      invariant forall j, d :: 0 <= j < y.Length0 && 0 <= d < y.Length1 ==>
        y[j, d] == if j == i && d < c then v[d] else old(y[j, d])
    {
      y[i, c] := v[c];
    }
  }

  /** `np.append(X.reshape((len(X), 1)), y, 1)`: a new table whose column 0 is X
      and whose columns 1 .. are the columns of y. */
  method AppendColumn(X: seq<real>, y: array2<real>) returns (s: array2<real>)
    requires |X| == y.Length0
    ensures fresh(s)
    ensures s.Length0 == y.Length0 && s.Length1 == y.Length1 + 1
    ensures forall i :: 0 <= i < s.Length0 ==> s[i, 0] == X[i]
    ensures forall i, c :: 0 <= i < s.Length0 && 1 <= c < s.Length1 ==> s[i, c] == y[i, c - 1]
  {
    s := new real[y.Length0, y.Length1 + 1];
    for i := 0 to y.Length0
      invariant forall j :: 0 <= j < i ==> s[j, 0] == X[j]
      invariant forall j, c :: 0 <= j < i && 1 <= c < s.Length1 ==> s[j, c] == y[j, c - 1]
    {
      s[i, 0] := X[i];
      for c := 1 to s.Length1
        invariant forall j :: 0 <= j <= i ==> s[j, 0] == X[j]
        invariant forall j, d :: 0 <= j < i && 1 <= d < s.Length1 ==> s[j, d] == y[j, d - 1]
        invariant forall d :: 1 <= d < c ==> s[i, d] == y[i, d - 1]
      {
        s[i, c] := y[i, c - 1];
      }
    }
  }

  /** A table whose state columns hold Traj row by row starts with y0, and
      each of its rows is one step from the row before. */
  lemma TableOfTraj(s: array2<real>, F: Rhs, y0: seq<real>, h: real)
    requires PreservesDim(F, |y0|)
    requires 1 <= s.Length0 && s.Length1 == |y0| + 1
    requires forall i, c :: 0 <= i < s.Length0 && 1 <= c < s.Length1 ==> s[i, c] == Traj(F, y0, h, i)[c - 1]
    ensures forall i :: 0 <= i < s.Length0 ==> StateRow(s, i) == Traj(F, y0, h, i)
    ensures StateRow(s, 0) == y0
    ensures forall i :: 0 <= i < s.Length0 - 1 ==>
      StateRow(s, i + 1) == StepRK4(F, i as real, StateRow(s, i), h)
  {
    forall i | 0 <= i < s.Length0
      ensures StateRow(s, i) == Traj(F, y0, h, i)
    {
      assert forall c :: 0 <= c < |y0| ==> StateRow(s, i)[c] == Traj(F, y0, h, i)[c];
    }
  }

  /** The solver on the grid arange(x0, xf, h). The table has one row per grid
      point and one column more than the state; column 0 is the grid; row 0
      holds y0; every later row is one Runge-Kutta step, taken at the loop
      index as time, from the row before it; and row j is Traj(j). */
  method Solve(F: Rhs, y0: seq<real>, x0: real, xf: real, h: real) returns (solution: array2<real>)
    requires PreservesDim(F, |y0|)
    requires h > 0.0 && x0 < xf
    ensures fresh(solution)
    ensures solution.Length0 == GridLength(x0, xf, h) && solution.Length1 == |y0| + 1
    ensures forall i :: 0 <= i < solution.Length0 ==> solution[i, 0] == GridTime(x0, h, i)
    ensures solution[0, 0] == x0 && StateRow(solution, 0) == y0
    ensures forall i :: 0 <= i < solution.Length0 - 1 ==>
      StateRow(solution, i + 1) == StepRK4(F, i as real, StateRow(solution, i), h)
    ensures forall i :: 0 <= i < solution.Length0 ==> StateRow(solution, i) == Traj(F, y0, h, i)
  {
    var X := Arange(x0, xf, h);
    var n := |y0|;
    var y := new real[|X|, n]((_, _) => 0.0);
    SetRow(y, 0, y0);
    for i := 0 to |X| - 1
      invariant forall j, c :: 0 <= j <= i && 0 <= c < n ==> y[j, c] == Traj(F, y0, h, j)[c]
      invariant forall j, c :: i < j < |X| && 0 <= c < n ==> y[j, c] == 0.0
    {
      var row := GetRow(y, i);
      assert row == Traj(F, y0, h, i);
      var next := StepRK4(F, i as real, row, h);
      assert next == Traj(F, y0, h, i + 1);
      SetRow(y, i + 1, next);
    }
    solution := AppendColumn(X, y);
    TableOfTraj(solution, F, y0, h);
  }

  /** `RK4(F, y0)` with its hard-coded grid: x0 = 0, xf = 20, h = 0.1. The
      table has 200 rows; row i has time i/10 in column 0 and Traj(i),
      computed with the loop index as stage time, in the other columns. */
  method RK4(F: Rhs, y0: seq<real>) returns (solution: array2<real>)
    requires PreservesDim(F, |y0|)
    ensures fresh(solution)
    ensures solution.Length0 == 200 && solution.Length1 == |y0| + 1
    ensures forall i :: 0 <= i < 200 ==> solution[i, 0] == (i as real) / 10.0
    ensures StateRow(solution, 0) == y0
    ensures forall i :: 0 <= i < 200 ==> StateRow(solution, i) == Traj(F, y0, 0.1, i)
  {
    HardCodedGrid();
    solution := Solve(F, y0, 0.0, 20.0, 0.1);
  }

  /** On the hard-coded grid, the time handed to the first stage of step i
      (the index i) differs from the row's grid time i/10 at every step but the
      first; the steps are i = 0 .. 198, one fewer than the 200 rows. */
  lemma HardCodedStageTimesDiffer(i: nat)
    requires 1 <= i < 199
    ensures (i as real) != GridTime(0.0, 0.1, i)
    ensures GridTime(0.0, 0.1, i) == (i as real) / 10.0
  {
  }
}
