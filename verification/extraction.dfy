/** Frame to spectrum extraction: every frame row collapses to a per-channel sum
    (the spectrum entry) and a per-channel maximum (the colour of the light). */
module Extraction {
  import opened Pixels
  import opened Reductions

  /** Per-row result of extraction: `spectra[y]` sums row y, `lightColor[y]` is its brightest value per channel. */
  datatype Profile = Profile(spectra: seq<Rgb>, lightColor: seq<Rgb>)

  /** The values of channel `c` along a row. */
  function Column(row: seq<Rgb>, c: Channel): seq<nat>
  {
    seq(|row|, x requires 0 <= x < |row| => row[x].Get(c))
  }

  /** Per-channel sum along a row. */
  function RowSum(row: seq<Rgb>): Rgb
  {
    Rgb(Sum(Column(row, Red)), Sum(Column(row, Green)), Sum(Column(row, Blue)))
  }

  /** Per-channel maximum along a non-empty row. */
  function RowMax(row: seq<Rgb>): Rgb
    requires |row| > 0
  {
    Rgb(Max(Column(row, Red)), Max(Column(row, Green)), Max(Column(row, Blue)))
  }

  /** `v` is the brightest value of channel `c` along `row`: no pixel exceeds it and some pixel has it. */
  predicate IsBrightest(row: seq<Rgb>, c: Channel, v: nat) {
    && (forall x :: 0 <= x < |row| ==> row[x].Get(c) <= v)
    && (exists x :: 0 <= x < |row| && row[x].Get(c) == v)
  }

  /** Collapses every row of the frame: one spectrum entry and one light colour per row.
      Each light colour channel is the brightest value of that channel in the row, so it
      is a byte and some pixel of the row attains it. */
  function ProcessFrame(f: Frame): (p: Profile)
    requires ValidFrame(f) && f.width > 0
    ensures |p.spectra| == |f.rows| && |p.lightColor| == |f.rows|
    ensures forall y, c :: 0 <= y < |f.rows| ==> p.spectra[y].Get(c) == Sum(Column(f.rows[y], c))
    ensures forall y, c :: 0 <= y < |f.rows| ==> IsBrightest(f.rows[y], c, p.lightColor[y].Get(c))
    ensures forall y, c :: 0 <= y < |f.rows| ==> IsByte(p.lightColor[y].Get(c))
  {
    var p := Profile(seq(|f.rows|, y requires 0 <= y < |f.rows| => RowSum(f.rows[y])),
                     seq(|f.rows|, y requires 0 <= y < |f.rows| => RowMax(f.rows[y])));
    assert forall y, c :: 0 <= y < |f.rows| ==>
             IsBrightest(f.rows[y], c, p.lightColor[y].Get(c)) && IsByte(p.lightColor[y].Get(c)) by {
      forall y, c | 0 <= y < |f.rows|
        ensures IsBrightest(f.rows[y], c, p.lightColor[y].Get(c)) && IsByte(p.lightColor[y].Get(c))
      {
        RowMaxIsPixelValue(f, y, c);
      }
    }
    p
  }

  /** The light colour of a row is one of its pixels' values, channel by channel. */
  lemma RowMaxIsPixelValue(f: Frame, y: nat, c: Channel)
    requires ValidFrame(f) && f.width > 0 && y < |f.rows|
    ensures IsBrightest(f.rows[y], c, RowMax(f.rows[y]).Get(c))
    ensures IsByte(RowMax(f.rows[y]).Get(c))
  {
    var row := f.rows[y];
    var col := Column(row, c);
    assert RowMax(row).Get(c) == Max(col) by {
      match c
      case Red =>
      case Green =>
      case Blue =>
    }
    assert forall x :: 0 <= x < |row| ==> col[x] == row[x].Get(c);
    var x :| 0 <= x < |col| && col[x] == Max(col);
    assert IsPixel(row[x]);
  }

  /** Sum of the pixels' combined intensities along a row. */
  function TotalIntensity(row: seq<Rgb>): nat {
    if |row| == 0 then 0 else TotalIntensity(row[..|row| - 1]) + row[|row| - 1].Combined()
  }

  /** Summing each channel first and the channels afterwards gives the row's total light. */
  lemma {:induction false} CombinedIsTotalIntensity(row: seq<Rgb>)
    ensures RowSum(row).Combined() == TotalIntensity(row)
  {
    if |row| > 0 {
      var init := row[..|row| - 1];
      CombinedIsTotalIntensity(init);
      forall c | true
        ensures Column(row, c)[..|row| - 1] == Column(init, c)
      {
      }
    }
  }

  /** For a frame with at least one column, every channel of a row's spectrum entry lies
      between the row's light colour and `width` times it, and never exceeds `255 * width`. */
  lemma SpectraWithinLightColor(f: Frame, y: nat, c: Channel)
    requires ValidFrame(f) && f.width > 0 && y < |f.rows|
    ensures var p := ProcessFrame(f);
      p.lightColor[y].Get(c) <= p.spectra[y].Get(c) <= f.width * p.lightColor[y].Get(c)
      && p.spectra[y].Get(c) <= 255 * f.width
  {
    var p := ProcessFrame(f);
    var col := Column(f.rows[y], c);
    assert p.lightColor[y].Get(c) == Max(col) by {
      var m := p.lightColor[y].Get(c);
      assert forall x :: 0 <= x < |col| ==> col[x] <= m;
      var x :| 0 <= x < f.width && f.rows[y][x].Get(c) == m;
      assert col[x] == m;
      assert Max(col) <= m;
    }
    MaxWithinSum(col);
    assert forall x :: 0 <= x < |col| ==> col[x] <= 255 by {
      forall x | 0 <= x < |col| ensures col[x] <= 255 {
        assert IsPixel(f.rows[y][x]);
      }
    }
    SumBoundedBy(col, 255);
  }

  /** Channel-wise sum of two colour triples. */
  function AddRgb(a: Rgb, b: Rgb): Rgb
  {
    Rgb(a.r + b.r, a.g + b.g, a.b + b.b)
  }

  /** Channel-wise maximum of two colour triples. */
  function MaxRgb(a: Rgb, b: Rgb): Rgb
  {
    Rgb(if a.r >= b.r then a.r else b.r, if a.g >= b.g then a.g else b.g, if a.b >= b.b then a.b else b.b)
  }

  /** Extending a row prefix by one pixel adds that pixel to the sums and may raise the maxima. */
  lemma ColumnExtend(row: seq<Rgb>, i: nat, c: Channel)
    requires 0 < i < |row|
    ensures Sum(Column(row[..i + 1], c)) == Sum(Column(row[..i], c)) + row[i].Get(c)
    ensures Max(Column(row[..i + 1], c)) ==
            if Max(Column(row[..i], c)) >= row[i].Get(c) then Max(Column(row[..i], c)) else row[i].Get(c)
  {
    var col := Column(row[..i + 1], c);
    assert col[..i] == Column(row[..i], c);
  }

  /** One pass over a row computing both reductions at once. */
  method ReduceRow(row: seq<Rgb>) returns (sum: Rgb, max: Rgb)
    requires |row| > 0
    ensures sum == RowSum(row) && max == RowMax(row)
  {
    sum := row[0];
    max := row[0];
    var i := 1;
    while i < |row|
      invariant 1 <= i <= |row|
      invariant forall c :: sum.Get(c) == Sum(Column(row[..i], c))
      invariant forall c :: max.Get(c) == Max(Column(row[..i], c))
    {
      forall c | true
        ensures AddRgb(sum, row[i]).Get(c) == Sum(Column(row[..i + 1], c))
        ensures MaxRgb(max, row[i]).Get(c) == Max(Column(row[..i + 1], c))
      {
        ColumnExtend(row, i, c);
      }
      sum := AddRgb(sum, row[i]);
      max := MaxRgb(max, row[i]);
      i := i + 1;
    }
    assert row[..i] == row;
    assert sum.Get(Red) == RowSum(row).r && sum.Get(Green) == RowSum(row).g && sum.Get(Blue) == RowSum(row).b;
    assert max.Get(Red) == RowMax(row).r && max.Get(Green) == RowMax(row).g && max.Get(Blue) == RowMax(row).b;
  }

  /** Row-by-row extraction of the whole frame; agrees with `ProcessFrame`. */
  method ExtractProfile(f: Frame) returns (p: Profile)
    requires ValidFrame(f) && f.width > 0
    ensures p == ProcessFrame(f)
  {
    var spectra: seq<Rgb> := [];
    var lightColor: seq<Rgb> := [];
    var y := 0;
    while y < |f.rows|
      invariant 0 <= y <= |f.rows|
      invariant |spectra| == y && |lightColor| == y
      invariant forall k :: 0 <= k < y ==> spectra[k] == RowSum(f.rows[k])
      invariant forall k :: 0 <= k < y ==> lightColor[k] == RowMax(f.rows[k])
    {
      var s, m := ReduceRow(f.rows[y]);
      spectra := spectra + [s];
      lightColor := lightColor + [m];
      y := y + 1;
    }
    p := Profile(spectra, lightColor);
  }
}
