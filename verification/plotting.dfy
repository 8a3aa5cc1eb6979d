/** What the spectrum plot draws, as data: one bar per spectrum row, and, when a
    reference spectrum exists, a transmission overlay drawn in blue. */
module Plotting {
  import opened Pixels
  import opened Reductions
  import opened Axis

  /** The colour the drawing library gives the name 'blue'. */
  const TransmissionFill: Rgb := Rgb(0, 0, 255)

  /** A horizontal line from (x0, y) to (x1, y). */
  datatype Segment = Segment(y: nat, x0: int, x1: int, fill: Rgb)

  /** The reference spectrum, if one was captured. Its absence is a different state
      from an all-zero reference. */
  datatype Reference = NoReference | Reference(spectra: seq<Rgb>)

  /** A white canvas of the given size and the segments drawn on it, bars first.
      Segments whose row lies at or beyond `height` fall outside the canvas. */
  datatype Plot = Plot(width: nat, height: nat, bars: seq<Segment>, overlay: seq<Segment>)

  /** Combined (red + green + blue) intensity of every spectrum row. */
  function Combined(spectra: seq<Rgb>): seq<nat>
  {
    seq(|spectra|, y requires 0 <= y < |spectra| => spectra[y].Combined())
  }

  /** Each row's bar length: its combined intensity relative to the brightest row, stretched to `width - 1`.
      A brightest row reaches column `width - 1`. With at least one column every length is a column of the plot
      and lengths follow the intensities. */
  function BarLengths(combined: seq<nat>, width: nat): (lens: seq<int>)
    requires |combined| > 0 && Max(combined) > 0
    ensures |lens| == |combined|
    ensures forall y :: 0 <= y < |lens| && combined[y] == Max(combined) ==> lens[y] == width - 1
    ensures width >= 1 ==> forall y :: 0 <= y < |lens| ==> 0 <= lens[y] <= width - 1
    ensures width >= 1 ==> forall a, b :: 0 <= a < |lens| && 0 <= b < |lens| && combined[a] <= combined[b] ==>
              lens[a] <= lens[b]
  {
    var top := Max(combined);
    var lens := seq(|combined|, y requires 0 <= y < |combined| => Scale(combined[y] as real, top as real, width));
    assert forall y :: 0 <= y < |lens| && combined[y] == top ==> lens[y] == width - 1 by {
      ScaleAtTop(top as real, width);
    }
    assert width >= 1 ==> forall y :: 0 <= y < |lens| ==> 0 <= lens[y] <= width - 1 by {
      if width >= 1 {
        forall y | 0 <= y < |lens| ensures 0 <= lens[y] <= width - 1 {
          ScaleWithinAxis(combined[y] as real, top as real, width);
        }
      }
    }
    assert width >= 1 ==> forall a, b :: 0 <= a < |lens| && 0 <= b < |lens| && combined[a] <= combined[b] ==>
             lens[a] <= lens[b] by {
      if width >= 1 {
        forall a, b | 0 <= a < |lens| && 0 <= b < |lens| && combined[a] <= combined[b]
          ensures lens[a] <= lens[b]
        {
          ScaleMonotone(combined[a] as real, combined[b] as real, top as real, width);
        }
      }
    }
    lens
  }

  /** Over non-negative integers each bar length is exactly the floor division
      `combined * (width - 1) / max(combined)`. */
  lemma BarIsFloorDivision(combined: seq<nat>, width: nat, y: nat)
    requires |combined| > 0 && Max(combined) > 0 && width >= 1 && y < |combined|
    ensures BarLengths(combined, width)[y] == combined[y] * (width - 1) / Max(combined)
  {
    ScaleIsFloorDivision(combined[y], Max(combined), width);
  }

  /** Transmission in percent: live over reference where the reference is positive, zero elsewhere.
      Where the reference is positive the value times the reference gives back 100 times the live value. */
  function Transmission(live: seq<nat>, ref: seq<nat>): (t: seq<real>)
    requires |live| == |ref|
    ensures |t| == |live|
    ensures forall y :: 0 <= y < |t| ==> 0.0 <= t[y]
    ensures forall y :: 0 <= y < |t| && ref[y] == 0 ==> t[y] == 0.0
    ensures forall y :: 0 <= y < |t| && ref[y] > 0 ==> t[y] * (ref[y] as real) == 100.0 * (live[y] as real)
    ensures forall y :: 0 <= y < |t| ==> (t[y] > 0.0 <==> live[y] > 0 && ref[y] > 0)
  {
    seq(|live|, y requires 0 <= y < |live| =>
      if ref[y] > 0 then (live[y] as real / ref[y] as real) * 100.0 else 0.0)
  }

  /** Overlay segments for rows `0 .. n-1`: a row is drawn only when its scaled length is non-negative. */
  function OverlayRows(t: seq<real>, top: real, width: nat, n: nat): (segs: seq<Segment>)
    requires top > 0.0 && n <= |t|
    ensures |segs| <= n
    ensures forall i :: 0 <= i < |segs| ==>
              segs[i].y < n && segs[i].x0 == 0 && segs[i].x1 >= 0 && segs[i].fill == TransmissionFill
  {
    if n == 0 then []
    else
      var segs := OverlayRows(t, top, width, n - 1);
      var len := Scale(t[n - 1], top, width);
      if len >= 0 then segs + [Segment(n - 1, 0, len, TransmissionFill)] else segs
  }

  /** The transmission overlay, rescaled by its own maximum. Nothing is drawn unless that maximum is
      positive. When it is and the plot has a column, every row gets one segment, in row order: a zero
      transmission has length zero, the maximum reaches column `width - 1`, and all lie on the plot. */
  function Overlay(t: seq<real>, width: nat): (segs: seq<Segment>)
    requires |t| > 0
    requires forall y :: 0 <= y < |t| ==> 0.0 <= t[y]
    ensures MaxReal(t) <= 0.0 ==> segs == []
    ensures MaxReal(t) > 0.0 && width >= 1 ==>
              && |segs| == |t|
              && forall y :: 0 <= y < |t| ==>
                   && segs[y].y == y
                   && 0 <= segs[y].x1 <= width - 1
                   && (t[y] == 0.0 ==> segs[y].x1 == 0)
                   && (t[y] == MaxReal(t) ==> segs[y].x1 == width - 1)
    ensures forall i :: 0 <= i < |segs| ==>
              segs[i].y < |t| && segs[i].x0 == 0 && segs[i].fill == TransmissionFill
  {
    var top := MaxReal(t);
    if top > 0.0 then
      var segs := OverlayRows(t, top, width, |t|);
      assert width >= 1 ==> |segs| == |t| && forall y :: 0 <= y < |t| ==>
               && segs[y].y == y && 0 <= segs[y].x1 <= width - 1
               && (t[y] == 0.0 ==> segs[y].x1 == 0)
               && (t[y] == top ==> segs[y].x1 == width - 1) by {
        if width >= 1 {
          OverlayRowsComplete(t, top, width, |t|);
          forall y | 0 <= y < |t|
            ensures 0 <= segs[y].x1 <= width - 1
            ensures t[y] == 0.0 ==> segs[y].x1 == 0
            ensures t[y] == top ==> segs[y].x1 == width - 1
          {
            ScaleWithinAxis(t[y], top, width);
            ScaleOfZero(top, width);
            ScaleAtTop(top, width);
          }
        }
      }
      segs
    else
      []
  }

  /** Preconditions of plotting: a non-empty spectrum with some light in it, a light colour
      for every row, and a reference (if any) of the same length. */
  predicate CanPlot(spectra: seq<Rgb>, lightColor: seq<Rgb>, reference: Reference) {
    && |spectra| > 0
    && |lightColor| >= |spectra|
    && Max(Combined(spectra)) > 0
    && (reference.Reference? ==> |reference.spectra| == |spectra|)
  }

  /** The geometry of the spectrum plot: the bars of `Bars` and, with a reference, the overlay of `PlotOverlay`.
      There is one bar per spectrum row, at that row, starting at the left edge and coloured with the row's
      light colour. A brightest row's bar spans the axis; with at least one column every bar lies on the plot
      and a brighter row never has a shorter bar. Without a reference there is no overlay. With one (and a
      column), the blue overlay is drawn exactly when some row carries light in both spectra; it then has one
      segment per row, each on the plot, of length zero wherever the reference is dark. */
  function PlotSpectra(spectra: seq<Rgb>, lightColor: seq<Rgb>, reference: Reference,
                       width: nat, height: nat): (p: Plot)
    requires CanPlot(spectra, lightColor, reference)
    ensures p.width == width && p.height == height
    ensures BarsDrawn(spectra, lightColor, width, p.bars)
    ensures OverlayDrawn(spectra, reference, width, p.overlay)
  {
    Plot(width, height, Bars(spectra, lightColor, width), PlotOverlay(spectra, reference, width))
  }

  /** What the bars of a plot satisfy: one per row, at that row, from the left edge, in the row's light colour;
      a brightest row's bar ends on column `width - 1`; with a column, every bar ends on the plot and a
      brighter row never has a shorter bar. */
  ghost predicate BarsDrawn(spectra: seq<Rgb>, lightColor: seq<Rgb>, width: nat, bars: seq<Segment>)
    requires |spectra| > 0 && |lightColor| >= |spectra|
  {
    && |bars| == |spectra|
    && (forall y :: 0 <= y < |spectra| ==>
          bars[y].y == y && bars[y].x0 == 0 && bars[y].fill == lightColor[y])
    && (forall y :: 0 <= y < |spectra| && spectra[y].Combined() == Max(Combined(spectra)) ==>
          bars[y].x1 == width - 1)
    && (width >= 1 ==> forall y :: 0 <= y < |spectra| ==> 0 <= bars[y].x1 <= width - 1)
    && (width >= 1 ==>
          forall a, b :: 0 <= a < |spectra| && 0 <= b < |spectra| && spectra[a].Combined() <= spectra[b].Combined()
            ==> bars[a].x1 <= bars[b].x1)
  }

  /** What the overlay of a plot satisfies: every segment is blue, starts at the left edge and sits on a spectrum
      row; there is none without a reference; with a reference and a column it is drawn exactly when some row
      is lit in both spectra, and then holds one segment per row, on the plot, of length zero where the
      reference is dark. */
  ghost predicate OverlayDrawn(spectra: seq<Rgb>, reference: Reference, width: nat, overlay: seq<Segment>)
    requires reference.Reference? ==> |reference.spectra| == |spectra|
  {
    && (reference.NoReference? ==> overlay == [])
    && (forall i :: 0 <= i < |overlay| ==>
          overlay[i].y < |spectra| && overlay[i].x0 == 0 && overlay[i].fill == TransmissionFill)
    && (reference.Reference? && width >= 1 ==>
          (overlay != [] <==>
             exists y :: 0 <= y < |spectra| && spectra[y].Combined() > 0 && reference.spectra[y].Combined() > 0))
    && (reference.Reference? && width >= 1 && overlay != [] ==>
          && |overlay| == |spectra|
          && forall y :: 0 <= y < |spectra| ==>
               && overlay[y].y == y
               && 0 <= overlay[y].x1 <= width - 1
               && (reference.spectra[y].Combined() == 0 ==> overlay[y].x1 == 0))
  }

  /** One bar per spectrum row, of the length `BarLengths` gives, in the row's light colour. */
  function Bars(spectra: seq<Rgb>, lightColor: seq<Rgb>, width: nat): (bars: seq<Segment>)
    requires |spectra| > 0 && |lightColor| >= |spectra| && Max(Combined(spectra)) > 0
    ensures BarsDrawn(spectra, lightColor, width, bars)
  {
    var combined := Combined(spectra);
    var lens := BarLengths(combined, width);
    seq(|spectra|, y requires 0 <= y < |spectra| => Segment(y, 0, lens[y], lightColor[y]))
  }

  /** The overlay part of the plot: empty without a reference, the transmission overlay with one. */
  function PlotOverlay(spectra: seq<Rgb>, reference: Reference, width: nat): (segs: seq<Segment>)
    requires |spectra| > 0 && (reference.Reference? ==> |reference.spectra| == |spectra|)
    ensures OverlayDrawn(spectra, reference, width, segs)
  {
    match reference
    case NoReference => []
    case Reference(refSpectra) =>
      var live := Combined(spectra);
      var ref := Combined(refSpectra);
      assert |live| == |spectra| && |ref| == |spectra|;
      assert forall y :: 0 <= y < |spectra| ==> live[y] == spectra[y].Combined() && ref[y] == refSpectra[y].Combined();
      TransmissionOverlay(live, ref, width)
  }

  /** The overlay of the transmission of `live` against `ref`. With at least one column it is drawn exactly
      when some row is lit in both; it then has one segment per row, of length zero where `ref` is dark. */
  function TransmissionOverlay(live: seq<nat>, ref: seq<nat>, width: nat): (segs: seq<Segment>)
    requires |live| > 0 && |live| == |ref|
    ensures forall i :: 0 <= i < |segs| ==> segs[i].y < |live| && segs[i].x0 == 0 && segs[i].fill == TransmissionFill
    ensures width >= 1 ==> (segs != [] <==> exists y :: 0 <= y < |live| && live[y] > 0 && ref[y] > 0)
    ensures width >= 1 && segs != [] ==>
              && |segs| == |live|
              && forall y :: 0 <= y < |live| ==>
                   segs[y].y == y && 0 <= segs[y].x1 <= width - 1 && (ref[y] == 0 ==> segs[y].x1 == 0)
  {
    var t := Transmission(live, ref);
    var segs := Overlay(t, width);
    assert width >= 1 ==> (segs != [] <==> exists y :: 0 <= y < |live| && live[y] > 0 && ref[y] > 0) by {
      if width >= 1 {
        var top := MaxReal(t);
        if top > 0.0 {
          var k :| 0 <= k < |t| && t[k] == top;
          assert live[k] > 0 && ref[k] > 0;
        } else {
          assert forall y :: 0 <= y < |live| ==> !(live[y] > 0 && ref[y] > 0);
        }
      }
    }
    segs
  }

  /** When every scaled length is non-negative, the overlay rows hold one segment per row, in row order. */
  lemma {:induction false} OverlayRowsComplete(t: seq<real>, top: real, width: nat, n: nat)
    requires top > 0.0 && n <= |t| && width >= 1
    requires forall y :: 0 <= y < |t| ==> 0.0 <= t[y] <= top
    ensures var segs := OverlayRows(t, top, width, n);
      |segs| == n && forall y :: 0 <= y < n ==> segs[y].y == y && segs[y].x1 == Scale(t[y], top, width)
  {
    if n > 0 {
      OverlayRowsComplete(t, top, width, n - 1);
      ScaleWithinAxis(t[n - 1], top, width);
    }
  }

  /** Plotting a spectrum against itself as the reference gives a flat transmission of 100 percent:
      every row with light reaches the last column and every dark row has length zero. */
  lemma SelfReferenceIsFlat(spectra: seq<Rgb>, lightColor: seq<Rgb>, width: nat, height: nat)
    requires CanPlot(spectra, lightColor, Reference(spectra)) && width >= 1
    ensures var p := PlotSpectra(spectra, lightColor, Reference(spectra), width, height);
      && |p.overlay| == |spectra|
      && forall y :: 0 <= y < |spectra| ==>
           p.overlay[y].x1 == if spectra[y].Combined() > 0 then width - 1 else 0
  {
  }
}
