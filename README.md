# Image watermark tool — model of the watermark logic

The tool is a desktop window (`WatermarkApp` in `index.py`) that loads an
image, stamps a line of text on it and saves the result. The text has a
colour, an opacity, a position (four corners or the centre), and an optional
background box. This project models the logic behind the buttons:

- **Layout** (`layout.dfy`): the text size from the rasteriser's bounding
  box, and the anchor for each position label, 20 units from the edges or
  centred by floor division. It also covers the background box, 10 units
  larger on every side than the measured extent placed at the anchor, and the opacity-to-alpha mapping
  `int(255 * (v / 100))`.
- **Compositor** (`compositor.dfy`): the transparent overlay layer as the
  ordered list of drawing calls made on it. The optional background
  rectangle comes first, then the text. The rectangle is drawn only when a
  background colour is chosen and the background slider is above zero.
- **ExportFormat** (`export_format.dfy`): the save format choice. A path
  whose lower-cased form ends in `.jpg` or `.jpeg` is converted to RGB
  first. The conversion drops the alpha band; it does not composite onto a
  background. Every other path is passed to the encoder unconverted (RGBA),
  and the extension picks the encoder.
- **App** (`watermark_app.dfy`): the `WatermarkApp` class, with the fields
  the handlers update (image path, result, text colour, background colour).
  It covers the guards and updates of upload, the two colour choosers,
  apply and save.

The imaging library is not modelled. Its results are parameters:

- the decoded image size, or `None` when opening or converting raises;
- the text's bounding box for the chosen font.

The dialogs' answers are parameters too: a path, or `""` on cancel; a
colour, or `None` on cancel.

Python's `//` floors, and Dafny's `/` with a positive divisor floors too.
So the centring arithmetic is the source's, even when the text is wider than
the image. For every slider value 0..100, `int(255 * (v / 100))` equals the
integer `(255 * v) / 100`. The model therefore uses integers only. The code
truncates: 10 % gives 25, where rounding would give 26.

## Model

| member | source | states |
|---|---|---|
| `Layout.TextExtent` | index.py:176-178 | the text size spans the bounding box from left to right and top to bottom; it is non-negative for a well-formed box |
| `Layout.ParsePosition` | index.py:184-198 | each of the four corner labels selects its corner, and only that label does; every other label, "Center" included, centres |
| `Layout.Anchor` | index.py:181-198 | left-side positions have x = 20; right-side positions have x + text width + 20 = image width; top positions have y = 20; bottom positions have y + text height + 20 = image height; the centre leaves equal gaps before and after the text, or one more unit after it |
| `Layout.CentredIsFloorHalf` | index.py:196-198 | centring has exactly one solution, `(W - w) // 2`, also when `W - w` is negative |
| `Layout.TopLeftIsFixed` | index.py:184-186 | "Top Left" gives (20, 20) whatever the image and text sizes |
| `Layout.OtherLabelsCentre` | index.py:196-198 | any label other than the four corners gives `((W - w) // 2, (H - h) // 2)` |
| `Layout.CentreExample` | index.py:196-198 | 40x10 text on a 100x50 image is centred at (30, 20) |
| `Layout.BackgroundBox` | index.py:205-210 | the rectangle drawn behind the text starts 10 units before the measured extent placed at the anchor and ends 10 units after it, in both directions (not around the drawn text: see `Layout.InkOffsetFromBackground`) |
| `Layout.BackgroundEnclosesText` | index.py:182 | the background box encloses the measured extent placed at the anchor with exactly 10 units on every side and is never empty |
| `Layout.InkBox` | index.py:176 | text drawn at an origin lands at the measured box shifted by that origin: it starts at origin + (left, top) and has the measured size |
| `Layout.InkOffsetFromBackground` | index.py:176-214 | text drawn at the anchor is 10 + left and 10 + top inside the background box's near edges and 10 - left and 10 - top inside its far edges; the box contains the text exactly when both offsets are within 10 of zero |
| `Layout.InkMarginsAtCorners` | index.py:184-195 | "Top Left" text starts at 20 + left, 20 + top; "Top Right" text ends 20 - left before the right edge and starts at 20 + top; "Bottom Left" text starts at 20 + left and ends 20 - top before the bottom edge; "Bottom Right" text ends 20 - left and 20 - top before the right and bottom edges |
| `Layout.TextEscapesBackgroundExample` | index.py:196-214 | centred text with bounding box (2, 15, 202, 45) on a 400x300 image ends at y = 180, below its background box, which ends at y = 175 |
| `Layout.TextPastEdgeExample` | index.py:193-195 | "Bottom Right" text with bounding box (0, 25, 100, 55) on a 400x300 image ends at y = 305, past the bottom edge |
| `Layout.CorrectedOrigin` | index.py:214 | drawing at the anchor minus (left, top) puts the text exactly on the measured extent placed at the anchor |
| `Layout.CorrectedPlacement` | index.py:182-214 | at the corrected origin the text is inside its background box with exactly 10 units on every side, text at each of the four corners keeps exactly 20 from the two edges of its corner, and centred text is centred |
| `Layout.Alpha` | index.py:202 | the alpha is 255 * percent / 100 rounded down: 100 * a <= 255 * v < 100 * a + 100, within 0..255 |
| `Layout.AlphaMonotone` | index.py:213 | a higher opacity setting never gives a lower alpha |
| `Layout.AlphaSliderEnds` | index.py:79-87 | 0 % gives 0 and 100 % gives 255; 10 % gives 25, which is truncated and not exact |
| `Layout.TextAlphaRange` | index.py:85 | every text-slider value (10..100) gives an alpha in 25..255 |
| `Layout.PositiveOpacityIsVisible` | index.py:201-203 | every background-slider value above zero gives an alpha of at least 2 |
| `Compositor.Controls.InSliderRanges` | index.py:79-87 | within the sliders' ranges (text 10..100, background 0..100) the text alpha is at least 25 and both alphas are at most 255 |
| `Compositor.DrawsBackground` | index.py:201 | no background without a colour or with the slider at 0; a drawn background has an alpha of at least 2 |
| `Compositor.TextAnchor` | index.py:176-198 | "Top Left" gives (20, 20); "Top Right" gives y = 20 and leaves 20 units between the measured extent placed there and the right edge; "Bottom Left" gives x = 20 and leaves 20 units to the bottom edge; "Bottom Right" leaves 20 units to the right and bottom edges; every non-corner label centres the measured extent |
| `Compositor.Layer` | index.py:200-215 | the overlay has two drawing calls when the background is drawn and one otherwise |
| `Compositor.TextDrawnLast` | index.py:212-215 | the text is drawn exactly once, last, at the anchor, in the text colour with the text slider's alpha (25..255) |
| `Compositor.BackgroundGated` | index.py:201 | a background rectangle is on the overlay if and only if a background colour is set and the background slider is above zero |
| `Compositor.BackgroundBeneathText` | index.py:206-215 | every background rectangle is drawn before the text |
| `Compositor.BackgroundGeometry` | index.py:201-210 | a drawn background is the box around the anchor, encloses the measured extent placed at the anchor by 10 units, and has the background colour at the background slider's alpha (2..255) |
| `Compositor.TextInsideBackgroundAsWritten` | index.py:176-215 | on the overlay as drawn, the text lies inside its background rectangle if and only if the bounding box's left and top offsets are within 10 of zero |
| `Compositor.CorrectedLayer` | index.py:200-215 | the overlay with the text drawn at the corrected origin makes the same number of calls as the program's overlay and the same background call |
| `Compositor.CorrectedTextInsideBackground` | index.py:200-215 | with the corrected origin the text lands on the measured extent at the anchor and lies inside every background rectangle with 10 units to spare |
| `ExportFormat.LowerChar` | index.py:238 | letters A-Z become a-z; every other character is unchanged |
| `ExportFormat.Lower` | index.py:238 | lower-casing keeps the length and lower-cases each character in place |
| `ExportFormat.IsJpegPath` | index.py:238 | the suffix test, with its helper `EndsWith` standing for Python's `str.endswith`; a path that passes the test has at least 4 characters and ends in "g" or "G" |
| `ExportFormat.ModeFor` | index.py:238-241 | dropping the alpha band is chosen if and only if the lower-cased path ends in ".jpg" or ".jpeg" |
| `ExportFormat.ModeIgnoresCase` | index.py:238 | a path and its lower-cased form are saved the same way |
| `ExportFormat.JpegExtensionFlattens` | index.py:238-239 | any path ending in ".jpg" or ".jpeg", in any letter case, has its alpha band dropped |
| `ExportFormat.PngExtensionKeepsAlpha` | index.py:240-241 | any path ending in ".png", in any letter case, is passed to the encoder unconverted, with its alpha band |
| `App.DefaultControls` | index.py:79-98 | the initial controls (position "Center", text opacity 50, background opacity 0) are in range, centre the text at text alpha 127, and draw no background whatever the colour |
| `App.WatermarkApp.HasImage` | index.py:152 | no path and the empty path both count as no image; any non-empty path counts as an image |
| `App.WatermarkApp.constructor` | index.py:18-23 | a new window has no image and no result, white text and no background colour |
| `App.WatermarkApp.UploadImage` | index.py:112-118 | a chosen path becomes the image path; a cancelled dialog keeps the old one |
| `App.WatermarkApp.ChooseTextColor` | index.py:139-142 | a picked colour becomes the text colour; cancelling keeps the old colour |
| `App.WatermarkApp.ChooseBgColor` | index.py:144-149 | a picked colour becomes the background colour; cancelling clears it |
| `App.WatermarkApp.ApplyWatermark` | index.py:151-224 | refused without an image, whatever the text; then refused for empty text; a library failure is reported; in these three cases the result is unchanged; otherwise the result has the decoded image's size and source and carries the overlay `Layer` |
| `App.WatermarkApp.SaveImage` | index.py:226-241 | refused when there is no result; a cancelled dialog writes nothing; otherwise the result is written to the chosen path, with the alpha band dropped exactly for ".jpg"/".jpeg" paths |
| `App.ApplyBeforeUpload` | index.py:151-154 | on a new window, apply is refused and there is then nothing to save |
| `App.UploadApplySave` | index.py:112-241 | with the initial controls, upload, apply and a save to a ".JPEG" path write the decoded size, from the uploaded path, with only the centred white text at alpha 127, and with the alpha band dropped |

## Findings

| source | as written | input that shows it | evidently intended | confidence | as-written member | corrected member |
|---|---|---|---|---|---|---|
| index.py:176-214 | the box is measured with the text at (0, 0) and the text is drawn at the anchor, so its ink is shifted by the bounding box's (left, top); the background box is built around the unshifted extent | bounding box (2, 15, 202, 45), "Center" on 400x300: the text ends at y = 180, the background at y = 175 | the text lies inside its background with 10 units of padding ("Draw rectangle slightly larger than text", index.py:205) | medium; not executed; it needs a top or left offset above 10, which depends on the font and size | `Layout.TextEscapesBackgroundExample` | `Compositor.CorrectedTextInsideBackground` |
| index.py:184-195 | the corner anchors keep 20 units from the edges for the unshifted extent, so the drawn text is 20 - left and 20 - top from the right and bottom edges | bounding box (0, 25, 100, 55), "Bottom Right" on 400x300: the text ends at y = 305, past the 300-unit image edge | corner text keeps a margin of 20 from the edges it is anchored to | medium; not executed; depends on the font's offsets as above | `Layout.TextPastEdgeExample` | `Layout.CorrectedPlacement` |

`App.WatermarkApp.ApplyWatermark` stores the overlay as the program draws it (`Compositor.Layer`), so the application model keeps the behaviour as written. The corrected origin and the corrected overlay stand beside it, with their properties proved.

## Left out

- Widget construction, layout, message boxes, dialogs and the colour chooser are not modelled (index.py:26-110). The same goes for window closing, `sys.exit` and the main loop (index.py:28-31, 247-257). They are UI and process lifecycle. The dialogs' answers are parameters.
- `show_image` is not modelled (index.py:120-137). Its fit-to-window scaling uses float division on live widget sizes and LANCZOS resampling. The display after upload and after apply is left out with it.
- The imaging library is not modelled: decoding, RGBA conversion, the transparent layer, rasterising the rectangle and the text, alpha compositing and encoding. The overlay is the list of drawing calls, and the composite records its source, size and overlay. The "over" blending of pixels is not modelled.
- Font selection is not modelled: the TrueType font at the spinbox size, and the fallback to the default font on any exception (index.py:170-173). This includes a size that does not parse as an integer. Only the bounding box that results is an input.
- `App.WatermarkApp.ApplyWatermark`: failures of the imaging library after decoding are not modelled separately. Failures from measuring, drawing or compositing are reported like a decoding failure. A failure in the display after the result is stored is not modelled either; the result would stay stored.
- `App.WatermarkApp.SaveImage`: the write itself and its failure (the "Failed to save image" message) are not modelled. The outcome records the write that is made.
- `ExportFormat.Lower`: it lower-cases only A-Z, where Python's `str.lower` follows Unicode case mapping. No other character lower-cases to a character of ".jpg" or ".jpeg" under that mapping, so the JPEG decision is not affected.
- `App.WatermarkApp.ChooseTextColor`: the colour chooser's components are taken as integers. The `int(c)` truncation of float components is not modelled (index.py:142).
- `App.WatermarkApp.ChooseBgColor`: the same holds for the background colour's components (index.py:147).
- `ExportFormat.ModeFor`: only ".jpg" and ".jpeg" have their alpha band dropped. The encoder also writes JPEG for other extensions, such as ".jpe" and ".jfif". Such a path gets the RGBA image unconverted, the encoder raises, and the program reports "Failed to save image" (index.py:243-244). The model records the write as `AsIs` and does not model that failure.
- `Compositor.Layer`: its placement properties (`Compositor.TextAnchor`, `Compositor.BackgroundGeometry`) are about the measured extent placed at the anchor. The text itself is drawn offset by the bounding box's (left, top). So neither the 20-unit margins nor the 10-unit padding hold for the drawn text in general. `Layout.InkOffsetFromBackground` and `Layout.InkMarginsAtCorners` give the actual gaps.
- The field `bg_opacity` is never read (index.py:23), so it is not a field of the model; the background slider is the value used.
- A chosen background colour is a non-empty tuple, so it always counts as set in the gating test. The model reads "set" as `Some`.
