# Spectrometer Zero: spectrum pipeline model

A Dafny model of the pure logic of the Spectrometer Zero script `spec_side.py`.
A Raspberry Pi camera takes frames of the light being measured.
Every frame becomes a spectrum, and the spectrum is drawn as a bar plot on a small LCD and on a web page.

The model covers three parts of the script:

- **Frame to spectrum extraction** (`process_frame`).
  A frame is a grid of rows of 8-bit RGB pixels.
  Each row collapses to two triples.
  The first is the per-channel sum along the row (`spectra`).
  The second is the per-channel maximum along the row (`light_color`).
- **Plot geometry** (`plot_spectra`).
  The pixels are not modelled; the drawn segments are kept as data.
  Each row `y` gets one bar from `(0, y)` to `(len, y)` in that row's light colour.
  `len` is the row's combined intensity `r + g + b`, divided by the largest combined intensity, times `width - 1`, truncated.
  With a reference spectrum, a blue transmission overlay is added.
  Transmission is `live / reference * 100` where the reference's combined value is positive, and 0 elsewhere.
  It is rescaled by its own maximum and drawn only when that maximum is positive.
- **Button handlers.**
  `toggle_display_mode` cycles the display mode through 0 and 1.
  `capture_reference_spectra` stores the spectrum of a frame as the reference.

Modules:

- `Pixels` holds colour triples and frames.
- `Reductions` holds the array sum and maximum.
- `Axis` holds truncation and the scaling of a value onto the plot's horizontal axis.
- `Extraction` models `process_frame`.
- `Plotting` models `plot_spectra`.
- `Display` models the two button handlers.

The source's float arithmetic is modelled with Dafny's exact `real` type.
The cast `astype(int)` becomes truncation toward zero (`Axis.Trunc`).
Over the non-negative integers of the bar computation, the bar length is proved equal to the integer floor division `combined * (width - 1) / max(combined)`.

The script has no cropping, no wavelength calibration, no peak detection, and no normalisation of the light colour to full brightness.
The bar colour is the raw per-channel row maximum.
It also does not special-case an all-dark frame: it divides by zero.
The model follows the code.
The plot keeps one segment per spectrum row even when the canvas is shorter than the frame is tall.
In the steady-state loop, for example, a 160-row frame is drawn on an 80-row canvas.
Segments at rows at or beyond `height` lie outside the canvas.

## Model

| member | source | states |
|---|---|---|
| `Reductions.Sum` | spec_side.py:155 | the row sum is at least every summed value |
| `Reductions.Max` | spec_side.py:156 | the maximum bounds every element and is attained by one |
| `Reductions.MaxReal` | spec_side.py:178 | the transmission maximum bounds every row's transmission and is attained by one |
| `Reductions.SumAppend` | spec_side.py:155 | the sum does not depend on how the row is split: sum(a + b) = sum(a) + sum(b) |
| `Reductions.SumBoundedBy` | spec_side.py:155 | values that are all at most k sum to at most length times k |
| `Reductions.MaxWithinSum` | spec_side.py:155-156 | over naturals, max <= sum <= length * max |
| `Axis.Trunc` | spec_side.py:167 | the int cast drops the fraction toward zero: for x >= 0, n <= x < n + 1; for x < 0, n - 1 < x <= n and n <= 0 |
| `Axis.ScaleWithinAxis` | spec_side.py:165-167 | a value between 0 and the maximum lands on a column in [0, width - 1] |
| `Axis.ScaleAtTop` | spec_side.py:166-167 | the maximum value lands exactly on column width - 1 |
| `Axis.ScaleOfZero` | spec_side.py:180 | a zero value lands on column 0 |
| `Axis.ScaleMonotone` | spec_side.py:167 | a larger non-negative value never lands left of a smaller one |
| `Axis.ScaleIsFloorDivision` | spec_side.py:167 | for natural numbers, the scaled and truncated exact real value equals v * (width - 1) / max in integer floor division; float64 rounding can differ (see `Axis.Scale` under "Left out") |
| `Extraction.ProcessFrame` | spec_side.py:153-157 | one spectrum entry and one light colour per frame row; `spectra[y][c]` is the channel-c sum of row y; `light_color[y][c]` bounds every pixel of row y in channel c, is attained by one of them, and is a byte |
| `Extraction.RowMaxIsPixelValue` | spec_side.py:156 | a row's light colour is, per channel, the brightest pixel value of the row and stays within 0..255 |
| `Extraction.CombinedIsTotalIntensity` | spec_side.py:155-165 | summing each channel along the row and then the three channels gives the row's total pixel intensity |
| `Extraction.SpectraWithinLightColor` | spec_side.py:155-156 | for a frame with columns, `light_color[y][c] <= spectra[y][c] <= width * light_color[y][c]` and `spectra[y][c] <= 255 * width` |
| `Extraction.ColumnExtend` | spec_side.py:155-156 | adding one pixel to a row prefix adds its value to the sum and raises the maximum only if the pixel is brighter |
| `Extraction.ReduceRow` | spec_side.py:155-156 | a single pass over a row yields exactly the per-channel sum and maximum |
| `Extraction.ExtractProfile` | spec_side.py:153-157 | row-by-row extraction returns exactly the profile `ProcessFrame` describes |
| `Plotting.BarLengths` | spec_side.py:165-167 | one length per row; a row whose combined intensity equals the maximum gets exactly width - 1; with width >= 1 every length lies in [0, width - 1], and combined[a] <= combined[b] implies length[a] <= length[b] |
| `Plotting.BarIsFloorDivision` | spec_side.py:167 | bar length = combined[y] * (width - 1) / max(combined) in integer floor division |
| `Plotting.Transmission` | spec_side.py:175-177 | transmission is non-negative; it is 0 where the reference is 0; where the reference is positive, transmission times reference gives 100 times the live value; it is positive exactly where both live and reference are positive |
| `Plotting.OverlayRows` | spec_side.py:180-183 | only rows with a non-negative scaled length are drawn, each a blue segment from column 0 |
| `Plotting.OverlayRowsComplete` | spec_side.py:180-183 | with width >= 1 and values within [0, max], the overlay has one segment per row, in row order, of the scaled length |
| `Plotting.Overlay` | spec_side.py:178-183 | nothing is drawn when the transmission maximum is not positive; otherwise, with width >= 1, one segment per row in [0, width - 1], zero transmission gives length 0, and the maximum gives width - 1 |
| `Plotting.TransmissionOverlay` | spec_side.py:174-183 | with width >= 1, the overlay is non-empty iff some row is lit in both live and reference; when drawn it has one segment per row, each in [0, width - 1], of length 0 where the reference is 0 |
| `Plotting.Bars` | spec_side.py:165-171 | one bar per row y, from (0, y), in `light_color[y]`; a brightest row's bar ends at width - 1; with width >= 1 bars end in [0, width - 1] and are monotone in the combined intensity |
| `Plotting.PlotOverlay` | spec_side.py:173-183 | no overlay without a reference; with a reference, every overlay segment is blue from column 0 and follows the drawn-iff-lit and zero-mask rules of `TransmissionOverlay` |
| `Plotting.PlotSpectra` | spec_side.py:160-185 | the plot of the given size; its bars satisfy `BarsDrawn` (one per row, from the left edge, in the row's light colour, within the axis, brightest row full width, monotone) and its overlay satisfies `OverlayDrawn` (absent without a reference, drawn iff some row is lit in both, zero where the reference is dark) |
| `Plotting.SelfReferenceIsFlat` | spec_side.py:174-183 | plotting a spectrum against itself gives full-width overlay segments on lit rows and zero-length ones on dark rows |
| `Display.ToggleDisplayMode` | spec_side.py:46-48 | the mode is always 0 or 1 afterwards; from 0 or 1 it moves to the other mode and back again |
| `Display.ToggleTwiceRestores` | spec_side.py:46-48 | toggling twice from mode 0 or 1 restores the mode |
| `Display.FirstToggleShowsPlot` | spec_side.py:41-48 | starting from the initial mode 0, the first toggle selects the plot (mode 1) |
| `Display.CaptureReference` | spec_side.py:51-56 | after a capture the reference is present, with one entry per frame row holding that row's per-channel sums |
| `Display.LitPixelLightsRow` | spec_side.py:155-165 | a row with any lit pixel has a positive combined spectrum entry |
| `Display.SameLightAsReferenceIsFlat` | spec_side.py:51-56 | a frame with any light can be plotted against a reference captured from that same frame; the overlay is then flat: full width on lit rows, zero on dark rows |

## Left out

- Display, SPI and GPIO initialisation (spec_side.py:18-38, 58-59) is hardware set-up.
- The Flask routes and HTML pages (spec_side.py:61-150) are HTTP plumbing.
- Camera capture and reconfiguration, including `capture_full_res_image` (spec_side.py:123-147, 198-201), are camera I/O.
  The full-resolution route is the same extraction and plot at 640 x 480. `PlotSpectra` covers it only when no reference has been captured.
  A reference comes from a 160-row or 240-row preview frame (spec_side.py:136, 199), so its length never matches the 1080-row full-resolution spectrum.
  With any such reference the route raises at spec_side.py:177, and the equal-length requirement of `PlotSpectra` excludes that case.
- The `main` loop (spec_side.py:193-231) is left out.
  It mutates globals, starts a thread, sleeps, handles `KeyboardInterrupt` and logs.
  Its point is concurrency and timing.
- Rasterisation by the imaging library and `display_on_lcd` resizing (spec_side.py:161-162, 187-190) are foreign calls.
  Segments are modelled as data instead, and clipping to the canvas is not modelled.
- Axis.Scale: computes with exact reals rather than float64. When the float quotient rounds just below an integer, the source's bar is one pixel shorter than the model's. For example, with combined value 1, maximum 49 and width 50, the source computes int(1/49*49) = int(0.9999999999999999) = 0, while the exact value and the floor division give 1.
- Reductions.Sum: does not model the wrap-around of the array sum. Summing 8-bit pixels accumulates in the platform's unsigned integer, which is 64 bits on a 64-bit system and 32 bits on a 32-bit one. On a 32-bit system a channel sum wraps past 2^32 / 255 (about 16.8 million) pixels per row. The combined sum of the three channels wraps past 2^32 / 765 (about 5.6 million) pixels per row.
- Plotting.PlotSpectra: requires max(combined) > 0. The source divides by zero there without a guard, so an all-dark frame has no defined plot.
- Plotting.PlotSpectra: requires at least one spectrum row, because the maximum of an empty array fails.
- Plotting.PlotSpectra: requires the reference to have the same length as the live spectrum. The source raises on most other lengths, with two exceptions that the array library broadcasts (spec_side.py:177). A one-row reference is divided into every live row. A one-row live spectrum against a longer reference gives one transmission value, and so one overlay segment, per reference row. Neither case is modelled.
- Plotting.Overlay: does not model the `np.isfinite` filters (spec_side.py:178, 182). The `reference > 0` guard makes every transmission value finite, so in exact arithmetic they keep every row.
- Extraction.ProcessFrame: requires at least one pixel column, because the maximum over an empty row fails.
- Extraction.ProcessFrame: models only three-channel frames, because the plot unpacks each light colour into exactly `r, g, b`.
- Logging calls are left out; they have no effect on the computed values.
