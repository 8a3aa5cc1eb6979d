/** Mapping an intensity onto the horizontal axis of a plot `width` pixels wide. */
module Axis {

  /** Conversion of a real to an integer by dropping the fraction, toward zero,
      as a numpy cast of a float array to int does. */
  function Trunc(x: real): (n: int)
    ensures x >= 0.0 ==> n as real <= x < n as real + 1.0
    ensures x < 0.0 ==> n as real - 1.0 < x <= n as real && n <= 0
  {
    if x >= 0.0 then x.Floor else -((-x).Floor)
  }

  /** Position reached by value `v` when value `top` is drawn at the last pixel
      column `width - 1`: `v / top * (width - 1)`, truncated. */
  function Scale(v: real, top: real, width: int): int
    requires top > 0.0
  {
    Trunc((v / top) * ((width - 1) as real))
  }

  /** A value between zero and the top lands on a pixel column of the plot. */
  lemma ScaleWithinAxis(v: real, top: real, width: int)
    requires top > 0.0 && 0.0 <= v <= top && width >= 1
    ensures 0 <= Scale(v, top, width) <= width - 1
  {
    var q := v / top;
    var a := (width - 1) as real;
    assert q * top == v;
    assert 0.0 <= q <= 1.0;
    assert 0.0 <= q * a <= a by {
      assert a - q * a == (1.0 - q) * a;
    }
  }

  /** The top value itself lands exactly on the last column. */
  lemma ScaleAtTop(top: real, width: int)
    requires top > 0.0
    ensures Scale(top, top, width) == width - 1
  {
    assert top / top == 1.0;
  }

  /** Zero lands on the first column. */
  lemma ScaleOfZero(top: real, width: int)
    requires top > 0.0
    ensures Scale(0.0, top, width) == 0
  {
  }

  /** A larger non-negative value never lands to the left of a smaller one. */
  lemma ScaleMonotone(v: real, w: real, top: real, width: int)
    requires top > 0.0 && 0.0 <= v <= w && width >= 1
    ensures Scale(v, top, width) <= Scale(w, top, width)
  {
    var a := (width - 1) as real;
    var p := v / top;
    var q := w / top;
    assert p * top == v && q * top == w;
    assert p <= q by {
      assert (q - p) * top == w - v;
    }
    var x := p * a;
    var y := q * a;
    assert 0.0 <= x <= y by {
      assert y - x == (q - p) * a;
    }
  }

  /** On naturals the scaled position is the integer floor division `v * (width - 1) / top`. */
  lemma ScaleIsFloorDivision(v: nat, top: nat, width: int)
    requires top > 0 && width >= 1
    ensures Scale(v as real, top as real, width) == v * (width - 1) / top
  {
    var n := v * (width - 1);
    var q := n / top;
    var r := n % top;
    assert n == q * top + r;
    var x := (v as real / top as real) * ((width - 1) as real);
    assert x == n as real / top as real;
    assert n as real == q as real * top as real + r as real;
    assert x == q as real + r as real / top as real;
    assert 0.0 <= r as real / top as real < 1.0;
    assert x >= 0.0;
  }
}
