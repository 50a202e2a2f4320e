/** Whole steps of a fixed length laid end to end over the reals, as the
    stepping loops of the simulation and of the INCHEM driver advance time. */
module RealSteps {

  /** Multiplying by a positive number keeps order. */
  lemma MulMono(x: real, y: real, d: real)
    requires x <= y && d > 0.0
    ensures x * d <= y * d
    ensures x < y ==> x * d < y * d
  {
    assert y * d - x * d == (y - x) * d;
  }

  /** `x` lies between `⌊x/d⌋` and `⌊x/d⌋ + 1` steps of length `d`. */
  lemma FloorScaled(x: real, d: real)
    requires d > 0.0
    ensures ((x / d).Floor as real) * d <= x < ((x / d).Floor as real + 1.0) * d
  {
    var q := x / d;
    var k := q.Floor as real;
    assert q * d == x;
    assert k <= q < k + 1.0;
    MulMono(k, q, d);
    assert k * d <= x;
    MulMono(q, k + 1.0, d);
    assert x < (k + 1.0) * d;
    assert k == (x / d).Floor as real;
  }

  /** `n` whole intervals of length `d`, laid end to end. */
  function Scaled(n: nat, d: real): real
  {
    if n == 0 then 0.0 else Scaled(n - 1, d) + d
  }

  lemma {:induction false} ScaledIsProduct(n: nat, d: real)
    ensures Scaled(n, d) == (n as real) * d
  {
    if n > 0 {
      ScaledIsProduct(n - 1, d);
      assert ((n - 1) as real) * d + d == (n as real) * d;
    }
  }

  /** One more whole interval fits between `a` and `b` intervals when `a < b`. */
  lemma {:induction false} ScaleMono(a: nat, b: nat, d: real)
    requires d > 0.0 && a < b
    ensures Scaled(a, d) + d <= Scaled(b, d)
  {
    if a + 1 < b {
      ScaleMono(a, b - 1, d);
    }
  }

  /** The fewest steps of length `d` that take `start` to `target` or
      beyond. */
  function StepsToReach(start: real, target: real, d: real): (k: nat)
    requires d > 0.0
    ensures start + Scaled(k, d) >= target
    ensures k > 0 ==> start + Scaled(k - 1, d) < target
  {
    if start >= target then 0
    else
      var q := (target - start) / d;
      FloorScaled(target - start, d);
      ScaledIsProduct(q.Floor, d);
      ScaledIsProduct(q.Floor + 1, d);
      assert q * d == target - start;
      if (q.Floor as real) * d == target - start then
        assert q.Floor > 0;
        ScaledIsProduct(q.Floor - 1, d);
        assert ((q.Floor - 1) as real) * d < (q.Floor as real) * d by {
          MulMono((q.Floor - 1) as real, q.Floor as real, d);
        }
        q.Floor
      else
        assert ((q.Floor + 1) as real) * d == (q.Floor as real + 1.0) * d;
        q.Floor + 1
  }

  /** A loop that stops once `start` plus its steps reaches `target` stops
      after exactly `StepsToReach` steps. */
  lemma ReachExit(start: real, target: real, d: real, j: nat)
    requires d > 0.0 && j <= StepsToReach(start, target, d)
    requires start + Scaled(j, d) >= target
    ensures j == StepsToReach(start, target, d)
  {
    var k := StepsToReach(start, target, d);
    if j + 1 < k {
      ScaleMono(j, k - 1, d);
    }
  }
}
