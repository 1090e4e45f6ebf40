/**
 * Products and quotients of reals by name, with the few laws the proofs about
 * rounding need, so that those proofs are linear.
 */
module Products {

  function Times(a: real, b: real): real { a * b }

  function Over(x: real, u: real): real
    requires u > 0.0
  {
    x / u
  }

  lemma Grows(a: real, b: real, u: real)
    requires a <= b && u > 0.0
    ensures Times(a, u) <= Times(b, u)
  {
    assert (b - a) * u >= 0.0;
  }

  lemma GrowsStrictly(a: real, b: real, u: real)
    requires a < b && u > 0.0
    ensures Times(a, u) < Times(b, u)
  {
    assert (b - a) * u > 0.0;
  }

  lemma Shrinks(a: real, b: real, u: real)
    requires Times(a, u) <= Times(b, u) && u > 0.0
    ensures a <= b
  {
    hide Times;
    if b < a {
      GrowsStrictly(b, a, u);
    }
  }

  lemma Cancels(a: real, b: real, u: real)
    requires Times(a, u) == Times(b, u) && u > 0.0
    ensures a == b
  {
    hide Times;
    Shrinks(a, b, u);
    Shrinks(b, a, u);
  }

  lemma Distributes(a: real, b: real, u: real)
    ensures Times(a + b, u) == Times(a, u) + Times(b, u)
  {
  }

  lemma Associates(a: real, b: real, c: real)
    ensures Times(Times(a, b), c) == Times(a, Times(b, c))
  {
  }

  lemma Commutes(a: real, b: real)
    ensures Times(a, b) == Times(b, a)
  {
  }

  lemma TenTimes(p: real, q: real)
    ensures Times(p, 10.0 * q) == 10.0 * Times(p, q)
  {
  }

  lemma OverTimes(x: real, u: real)
    requires u > 0.0
    ensures Times(Over(x, u), u) == x
  {
  }

  lemma ByLiterals(u: real)
    ensures Times(0.0, u) == 0.0 && Times(1.0, u) == u
    ensures 2.0 * Times(0.5, u) == u && 2.0 * Times(-0.5, u) == -u
  {
  }
}
