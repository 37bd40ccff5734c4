/** State vectors: fixed-length sequences of reals, with the elementwise sum
    and the scalar multiple that numpy provides for the integrator's stage
    combinations. */
module Vectors {

  /** The vector of n zeros: the rate of a right-hand side at a rest point. */
  function Zeros(n: nat): (z: seq<real>)
    ensures |z| == n
    ensures forall i :: 0 <= i < n ==> z[i] == 0.0
  {
    seq(n, i => 0.0)
  }

  /** Elementwise sum of two vectors of the same length. */
  function Add(a: seq<real>, b: seq<real>): (r: seq<real>)
    requires |a| == |b|
    ensures |r| == |a|
    ensures forall i :: 0 <= i < |a| ==> r[i] == a[i] + b[i]
  {
    seq(|a|, i requires 0 <= i < |a| => a[i] + b[i])
  }

  /** Every component of a multiplied by the scalar k. */
  function Scale(k: real, a: seq<real>): (r: seq<real>)
    ensures |r| == |a|
    ensures forall i :: 0 <= i < |a| ==> r[i] == k * a[i]
  {
    seq(|a|, i requires 0 <= i < |a| => k * a[i])
  }

  /** Zeros is a right identity of Add. */
  lemma AddZeros(a: seq<real>)
    ensures Add(a, Zeros(|a|)) == a
  {
  }

  /** Scaling the zero vector gives the zero vector. */
  lemma ScaleZeros(k: real, n: nat)
    ensures Scale(k, Zeros(n)) == Zeros(n)
  {
  }

  /** Scaling by zero gives the zero vector. */
  lemma ScaleByZero(a: seq<real>)
    ensures Scale(0.0, a) == Zeros(|a|)
  {
  }

  /** Moving a by p * k and then by q * k moves it by (p + q) * k. */
  lemma AddScaledTwice(a: seq<real>, k: seq<real>, p: real, q: real)
    requires |a| == |k|
    ensures Add(Add(a, Scale(p, k)), Scale(q, k)) == Add(a, Scale(p + q, k))
  {
    forall c | 0 <= c < |a|
      ensures Add(Add(a, Scale(p, k)), Scale(q, k))[c] == Add(a, Scale(p + q, k))[c]
    {
      assert p * k[c] + q * k[c] == (p + q) * k[c];
    }
  }
}
