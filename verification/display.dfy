/** The button handlers: the display-mode toggle and the capture of a reference spectrum. */
module Display {
  import opened Pixels
  import opened Reductions
  import opened Extraction
  import opened Plotting

  /** Display mode at start-up: 0 shows the camera view, 1 the spectrum plot. */
  const InitialDisplayMode: int := 0

  /** Advances the display mode around its two-state cycle. The result is always 0 or 1;
      from either mode it moves to the other, so toggling twice returns to where it started. */
  function ToggleDisplayMode(mode: int): (next: int)
    ensures next == 0 || next == 1
    ensures (mode == 0 || mode == 1) ==> next != mode && (next + 1) % 2 == mode
  {
    (mode + 1) % 2
  }

  /** Toggling twice from any mode the program can be in restores that mode. */
  lemma ToggleTwiceRestores(mode: int)
    requires mode == 0 || mode == 1
    ensures ToggleDisplayMode(ToggleDisplayMode(mode)) == mode
  {
  }

  /** The first button press after start-up switches from the camera view to the spectrum plot. */
  lemma FirstToggleShowsPlot()
    ensures ToggleDisplayMode(InitialDisplayMode) == 1
  {
  }

  /** The reference is the spectrum part of the profile of a frame; once captured it is present,
      with one entry per frame row, each the row's per-channel sum. */
  function CaptureReference(frame: Frame): (r: Reference)
    requires ValidFrame(frame) && frame.width > 0
    ensures r.Reference? && |r.spectra| == |frame.rows|
    ensures forall y, c :: 0 <= y < |frame.rows| ==> r.spectra[y].Get(c) == Sum(Column(frame.rows[y], c))
  {
    Reference(ProcessFrame(frame).spectra)
  }

  /** A row holding a pixel with any light in it has a positive combined spectrum entry. */
  lemma LitPixelLightsRow(frame: Frame, y: nat, x: nat, c: Channel)
    requires ValidFrame(frame) && frame.width > 0 && y < |frame.rows| && x < frame.width
    requires frame.rows[y][x].Get(c) > 0
    ensures ProcessFrame(frame).spectra[y].Combined() > 0
  {
    var s := ProcessFrame(frame).spectra[y];
    var col := Column(frame.rows[y], c);
    assert col[x] > 0;
    assert s.Get(c) > 0;
    match c
    case Red =>
    case Green =>
    case Blue =>
  }

  /** Measuring the same light that was captured as the reference draws a flat overlay: every lit row
      reaches the last column of the plot and every dark row has length zero. */
  lemma SameLightAsReferenceIsFlat(frame: Frame, width: nat, height: nat)
    requires ValidFrame(frame) && frame.width > 0 && width >= 1
    requires exists y, x, c :: 0 <= y < |frame.rows| && 0 <= x < frame.width && frame.rows[y][x].Get(c) > 0
    ensures var profile := ProcessFrame(frame);
      && CanPlot(profile.spectra, profile.lightColor, CaptureReference(frame))
      && var p := PlotSpectra(profile.spectra, profile.lightColor, CaptureReference(frame), width, height);
      && |p.overlay| == |frame.rows|
      && forall y :: 0 <= y < |frame.rows| ==>
           p.overlay[y].x1 == if profile.spectra[y].Combined() > 0 then width - 1 else 0
  {
    var profile := ProcessFrame(frame);
    var y, x, c :| 0 <= y < |frame.rows| && 0 <= x < frame.width && frame.rows[y][x].Get(c) > 0;
    LitPixelLightsRow(frame, y, x, c);
    var combined := Combined(profile.spectra);
    assert combined[y] > 0;
    assert Max(combined) > 0;
    assert CanPlot(profile.spectra, profile.lightColor, Reference(profile.spectra));
    SelfReferenceIsFlat(profile.spectra, profile.lightColor, width, height);
  }
}
