/** Colour triples and camera frames shared by every stage of the spectrum pipeline. */
module Pixels {

  /** One of the three colour channels of a pixel. */
  datatype Channel = Red | Green | Blue

  /** A colour triple. Camera pixels hold 8-bit channels; the per-row sums built
      from them are unbounded naturals, so the type itself does not bound them. */
  datatype Rgb = Rgb(r: nat, g: nat, b: nat) {

    /** The value of channel `c`. */
    function Get(c: Channel): nat {
      match c
      case Red => r
      case Green => g
      case Blue => b
    }

    /** Sum of the three channels: the "combined" intensity of a spectrum entry. */
    function Combined(): nat {
      r + g + b
    }
  }

  predicate IsByte(n: nat) {
    n <= 255
  }

  predicate IsPixel(p: Rgb) {
    IsByte(p.r) && IsByte(p.g) && IsByte(p.b)
  }

  /** A captured frame: `rows` is indexed by y and every row holds `width` pixels.
      The width is kept explicitly so that a frame with no rows still has one. */
  datatype Frame = Frame(width: nat, rows: seq<seq<Rgb>>)

  /** The shape and range guarantees of an 8-bit RGB camera array. */
  predicate ValidFrame(f: Frame) {
    forall y :: 0 <= y < |f.rows| ==>
      |f.rows[y]| == f.width && forall x :: 0 <= x < f.width ==> IsPixel(f.rows[y][x])
  }
}
