/** The time grid of the integrator: `np.arange(x0, xf, h)` read over the
    reals, i.e. the points x0, x0 + h, x0 + 2h, ... that lie below xf. */
module Grid {

  /** The least integer that is not below q. */
  function Ceil(q: real): (k: int)
    ensures (k - 1) as real < q <= k as real
  {
    if q.Floor as real == q then q.Floor else q.Floor + 1
  }

  /** The i-th grid point. */
  function GridTime(x0: real, h: real, i: nat): (t: real)
  {
    x0 + (i as real) * h
  }

  /** The number of grid points, ceil((xf - x0) / h). */
  function GridLength(x0: real, xf: real, h: real): (n: nat)
    requires h > 0.0 && x0 < xf
    ensures n >= 1
  {
    Ceil((xf - x0) / h)
  }

  /** i is below the quotient (xf - x0) / h exactly when grid point i is below xf. */
  lemma BelowQuotient(x0: real, xf: real, h: real, i: nat)
    requires h > 0.0
    ensures (i as real) < (xf - x0) / h <==> GridTime(x0, h, i) < xf
  {
    var q := (xf - x0) / h;
    assert q * h == xf - x0;
    if (i as real) < q {
      assert (i as real) * h < q * h;
    } else {
      assert q * h <= (i as real) * h;
    }
  }

  /** `np.arange(x0, xf, h)`: the grid points, starting at x0, spaced by h,
      and holding exactly those points x0 + i*h that are below xf. */
  function Arange(x0: real, xf: real, h: real): (r: seq<real>)
    requires h > 0.0 && x0 < xf
    ensures |r| == GridLength(x0, xf, h)
    ensures r[0] == x0
    ensures forall i :: 0 <= i < |r| ==> r[i] == GridTime(x0, h, i)
    ensures forall i :: 0 <= i < |r| - 1 ==> r[i + 1] == r[i] + h
    ensures forall i: nat {:trigger GridTime(x0, h, i)} :: i < |r| <==> GridTime(x0, h, i) < xf
  {
    var n := GridLength(x0, xf, h);
    var r := seq(n, i requires 0 <= i < n => GridTime(x0, h, i));
    assert forall i: nat {:trigger GridTime(x0, h, i)} :: i < n <==> GridTime(x0, h, i) < xf by {
      forall i: nat
        ensures i < n <==> GridTime(x0, h, i) < xf
      {
        BelowQuotient(x0, xf, h, i);
      }
    }
    r
  }

  /** With the constants hard-coded in the solver (x0 = 0, xf = 20, h = 0.1)
      the grid has 200 points, the last one at 19.9. */
  lemma HardCodedGrid()
    ensures GridLength(0.0, 20.0, 0.1) == 200
    ensures Arange(0.0, 20.0, 0.1)[199] == 19.9
  {
    assert (20.0 - 0.0) / 0.1 == 200.0;
    assert (200.0).Floor == 200;
  }
}
