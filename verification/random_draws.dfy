/** The random draws of the generator scripts, taken as parameters: `random.choice` over the
    candidate sizes, and `random.random()` values in `[0, 1)` from which `random.uniform` is built. */
module RandomDraws {

  /** The values `random.choice` picks `n` from. */
  const Candidates: seq<int> := [25, 50, 100, 200, 400]

  /** `random.uniform(a, b)`, which is `a + (b - a) * random.random()`: for `a <= b` it lies in
      `[a, b]`, and below `b` when the interval is not a single point. */
  function Uniform(a: real, b: real, u: real): (x: real)
    requires a <= b && 0.0 <= u < 1.0
    ensures a <= x <= b
    ensures a < b ==> x < b
  {
    var width := b - a;
    ScaledUnit(width, u);
    a + width * u
  }

  /** A non-negative width scaled by a draw in `[0, 1)` stays within the width. */
  lemma {:induction false} ScaledUnit(d: real, u: real)
    requires d >= 0.0 && 0.0 <= u < 1.0
    ensures 0.0 <= d * u <= d
    ensures d > 0.0 ==> d * u < d
  {
    assert d - d * u == d * (1.0 - u);
    assert d * (1.0 - u) >= 0.0;
    if d > 0.0 {
      assert d * (1.0 - u) > 0.0;
    }
  }

  /** One `random.random()` value per matrix coefficient: `n` rows of `n, n - 1, ..., 1` values,
      each in `[0, 1)`. */
  predicate UnitRows(units: seq<seq<real>>, n: nat)
  {
    && |units| == n
    && forall r :: 0 <= r < n ==>
         |units[r]| == n - r && forall j :: 0 <= j < |units[r]| ==> 0.0 <= units[r][j] < 1.0
  }
}
