/** The scalar helpers of waifu2x.go (`mul`, `add`, `maximum`, `minimum`), the
    per-element rules built from them (leaky rectifier, clamp, `uint8`
    truncation) and the plane-count minimum taken through `math.Min`. */
module Helpers {

  /** A value that may be absent: Go's nil pointer, or an aborted run. */
  datatype Option<T> = None | Some(value: T)

  /** An 8-bit sample, Go's `uint8`. */
  newtype byte = x: int | 0 <= x < 256

  /** `mul(a, b)`. */
  function Mul(a: real, b: real): real { a * b }

  /** `add(a, b)`. */
  function Plus(a: real, b: real): real { a + b }

  /** `maximum(a, b)`: the first argument when it is not below the second. */
  function Maximum(a: real, b: real): (r: real)
    ensures a <= r && b <= r
    ensures r == a || r == b
  {
    if a >= b then a else b
  }

  /** `minimum(a, b)`: the first argument when it is not above the second. */
  function Minimum(a: real, b: real): (r: real)
    ensures r <= a && r <= b
    ensures r == a || r == b
  {
    if a <= b then a else b
  }

  /** `int(math.Min(float64(a), float64(b)))` on the plane counts of a layer:
      both counts converted to floats, the smaller taken, and the result
      truncated back to an integer. Lengths are far below 2^53, so the round
      trip is exact and gives the smaller count. */
  function MinCount(a: nat, b: nat): (r: nat)
    ensures r <= a && r <= b
    ensures r == a || r == b
  {
    var m := Minimum(a as real, b as real);
    assert m == a as real || m == b as real;
    m.Floor as nat
  }

  /** The activation of Exec, as the program computes it element by element:
      `max(v, 0) + 0.1 * min(v, 0)` built from `maximum`, `minimum`, `mul`
      and the matrix addition. It is the leaky rectifier. */
  function Activation(v: real): (r: real)
    ensures v >= 0.0 ==> r == v
    ensures v < 0.0 ==> r == v / 10.0
  {
    Maximum(v, 0.0) + Mul(Minimum(v, 0.0), 0.1)
  }

  /** The element rule of `clip(im, start, end)`: below `start` gives `start`,
      otherwise above `end` gives `end`, otherwise the element itself. */
  function ClipValue(e: real, start: real, end: real): (r: real)
    ensures start <= end ==> start <= r <= end
    ensures start <= e <= end ==> r == e
    ensures e < start ==> r == start
    ensures start <= e && end < e ==> r == end
  {
    if e < start then start
    else if e > end then end
    else e
  }

  /** Go's conversion `uint8(v)` of a float in [0, 256): truncation toward
      zero, which for a non-negative value is the floor. */
  function Trunc8(v: real): (b: byte)
    requires 0.0 <= v < 256.0
    ensures b as real <= v < b as real + 1.0
  {
    v.Floor as byte
  }
}
