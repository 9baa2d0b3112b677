/** Real arithmetic shared by the model.  Every C++ `double` is a `real` here. */
module Numerics {

  datatype Option<+T> = None | Some(value: T)

  function Abs(x: real): real {
    if x < 0.0 then -x else x
  }

  function Max(x: real, y: real): real {
    if x < y then y else x
  }

  function Min(x: real, y: real): real {
    if y < x then y else x
  }

  function Clamp(value: real, low: real, high: real): real {
    Min(Max(value, low), high)
  }

  function Ceil(x: real): int {
    -((-x).Floor)
  }

  /** One tick of the steady clock is a nanosecond. */
  const TICKS_PER_SECOND := 1000000000.0

  function Seconds(ticks: int): real {
    ticks as real / TICKS_PER_SECOND
  }

  /** A named sum, so that the exponential law below has something to be instantiated on. */
  function Sum(a: real, b: real): real {
    a + b
  }

  /** The two library functions of <cmath> that the delay and rotation code needs. */
  datatype RealFunctions = RealFunctions(exp: real -> real, sqrt: real -> real) {

    ghost predicate SqrtLaw() {
      forall x {:trigger sqrt(x)} :: x >= 0.0 ==> sqrt(x) >= 0.0 && sqrt(x) * sqrt(x) == x
    }

    ghost predicate ExpLaw() {
      && (forall a, b {:trigger Sum(a, b)} :: exp(Sum(a, b)) == exp(a) * exp(b))
      && (forall x {:trigger exp(x)} :: x <= 0.0 ==> 0.0 < exp(x) <= 1.0)
    }
  }

  // Facts about products and quotients that the solver does not find by itself.

  lemma MulMono(a: int, b: int, c: int)
    requires a <= b && 0 <= c
    ensures a * c <= b * c
  {}

  lemma RealMulMono(a: real, b: real, c: real)
    requires a <= b && 0.0 <= c
    ensures a * c <= b * c
  {}

  lemma NonnegativeFactor(x: real, k: real)
    requires k > 0.0 && x * k >= 0.0
    ensures x >= 0.0
  {}

  lemma DivUnique(x: int, d: int, q: int)
    requires 0 < d
    requires q * d <= x < q * d + d
    ensures x / d == q
  {
    var r := x / d;
    assert r * d <= x < r * d + d;
    if r < q {
      MulMono(r + 1, q, d);
    } else if q < r {
      MulMono(q + 1, r, d);
    }
  }

  lemma DivMono(x: int, y: int, d: int)
    requires 0 < d && x <= y
    ensures x / d <= y / d
  {
    if y / d < x / d {
      MulMono(y / d + 1, x / d, d);
    }
  }

  lemma CeilBounds(x: real)
    ensures x <= Ceil(x) as real < x + 1.0
  {}
}
