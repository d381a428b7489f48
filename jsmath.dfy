/** The arithmetic of JavaScript numbers that the wheel relies on, stated over
    integers. Every angle the widget computes is a multiple of half a degree, so
    the callers scale angles to whole half-degrees before using these. */
module JsMath {

  /** JavaScript's `%`: the remainder of the division truncated toward zero, which
      takes the sign of the dividend (Dafny's own `%` is Euclidean). */
  function JsRem(a: int, m: int): (r: int)
    requires m > 0
    ensures -m < r < m
    ensures a >= 0 ==> r >= 0
    ensures a <= 0 ==> r <= 0
    ensures (a - r) % m == 0
  {
    JsRemCongruent(a, m);
    if a >= 0 then a % m else -((-a) % m)
  }

  /** The truncated remainder differs from its dividend by a multiple of m. */
  lemma JsRemCongruent(a: int, m: int)
    requires m > 0
    ensures a >= 0 ==> (a - a % m) % m == 0
    ensures a < 0 ==> (a + (-a) % m) % m == 0
  {
    if a >= 0 {
      var q := a / m;
      assert a - a % m == q * m;
      MultipleMod(q, m);
    } else {
      var q := (-a) / m;
      assert a + (-a) % m == (-q) * m;
      MultipleMod(-q, m);
    }
  }

  /** A positive multiple of a positive number is at least that number. */
  lemma {:induction false} MulAtLeast(d: int, m: int)
    requires d >= 1 && m > 0
    ensures d * m >= m
  {
    if d > 1 {
      MulAtLeast(d - 1, m);
      assert d * m == (d - 1) * m + m;
    }
  }

  /** `Math.floor(a / b)` for a positive divisor: the greatest q with q * b <= a. */
  function FloorDiv(a: int, b: int): (q: int)
    requires b > 0
    ensures q * b <= a < q * b + b
  {
    a / b
  }

  /** A Euclidean remainder is determined by any quotient that witnesses it. */
  lemma ModByWitness(a: int, m: int, q: int, r: int)
    requires m > 0 && 0 <= r < m && a == q * m + r
    ensures a % m == r && a / m == q
  {
    var q' := a / m;
    if q' > q {
      MulAtLeast(q' - q, m);
      assert false;
    } else if q' < q {
      MulAtLeast(q - q', m);
      assert false;
    }
  }

  /** Two numbers whose difference is a multiple of m have the same Euclidean
      remainder modulo m. */
  lemma CongruentMod(a: int, b: int, m: int)
    requires m > 0 && (a - b) % m == 0
    ensures a % m == b % m
  {
    var k := (a - b) / m;
    assert a - b == k * m;
    assert b == (b / m) * m + b % m;
    assert a == (k + b / m) * m + b % m;
    ModByWitness(a, m, k + b / m, b % m);
  }

  /** A multiple of m leaves no Euclidean remainder modulo m. */
  lemma MultipleMod(k: int, m: int)
    requires m > 0
    ensures (k * m) % m == 0
  {
    ModByWitness(k * m, m, k, 0);
  }

  /** `randInt(min, max)` given the value u that `Math.random()` returned, with
      real multiplication standing in for the floating-point one. For an
      inclusive range it returns a whole number inside the range. */
  function RandInt(min: int, max: int, u: real): (r: int)
    requires 0.0 <= u < 1.0
    ensures min <= max ==> min <= r <= max
  {
    var n := max - min + 1;
    assert min <= max ==> u * n as real < n as real;
    (u * n as real).Floor + min
  }

  /** Every value of an inclusive range is drawn by some value of `Math.random()`:
      the draw (k - min) / (max - min + 1) gives k. */
  lemma RandIntReaches(min: int, max: int, k: int)
    requires min <= k <= max
    ensures var u := (k - min) as real / (max - min + 1) as real;
            0.0 <= u < 1.0 && RandInt(min, max, u) == k
  {
    var n := (max - min + 1) as real;
    var u := (k - min) as real / n;
    assert u * n == (k - min) as real;
  }
}
