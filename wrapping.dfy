/** The integer arithmetic behind the `current` setter of a `Memory`. */
module Wrapping {

  /** A positive multiple of a positive number is at least that number. */
  lemma {:induction false} MultipleAtLeast(k: int, b: int)
    requires k >= 1 && b > 0
    ensures k * b >= b
    decreases k
  {
    if k > 1 {
      MultipleAtLeast(k - 1, b);
      assert k * b == (k - 1) * b + b;
    }
  }

  /** Division with remainder has a unique answer: any quotient and remainder
      in `[0, b)` that rebuild `a` are Dafny's `/` and `%`. */
  lemma DivisionUnique(a: int, b: int, q: int, r: int)
    requires b > 0 && 0 <= r < b && a == q * b + r
    ensures a / b == q && a % b == r
  {
    var q0, r0 := a / b, a % b;
    assert (q - q0) * b == r0 - r;
    if q > q0 {
      MultipleAtLeast(q - q0, b);
    } else if q < q0 {
      MultipleAtLeast(q0 - q, b);
    }
  }

  /** JavaScript's `%` on integers: the remainder of a division truncated
      toward zero, so a non-zero remainder has the dividend's sign. */
  function JsRem(a: int, b: int): (r: int)
    requires b > 0
    ensures -b < r < b
    ensures r != 0 ==> (r < 0 <==> a < 0)
    ensures r % b == a % b
  {
    if a >= 0 then a % b
    else
      var s := (-a) % b;
      var q := (-a) / b;
      if s == 0 then
        DivisionUnique(a, b, -q, 0);
        0
      else
        DivisionUnique(a, b, -q - 1, b - s);
        DivisionUnique(-s, b, -1, b - s);
        -s
  }

  /** What the setter stores for `value`: the JavaScript remainder, with `base`
      added once when it came out negative. That is exactly the mathematical
      (never negative) residue of `value` modulo `base`. */
  function Wrap(value: int, base: int): (r: int)
    requires base > 0
    ensures 0 <= r < base
    ensures r == value % base
  {
    var rem := JsRem(value, base);
    if rem < 0 then
      DivisionUnique(rem, base, -1, rem + base);
      DivisionUnique(rem + base, base, 0, rem + base);
      rem + base
    else
      DivisionUnique(rem, base, 0, rem);
      rem
  }
}
