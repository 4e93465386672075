/** The overlay layer of a watermark: what is drawn on the transparent
    layer, in which order, with which colours, before the layer is
    alpha-composited onto the source image. The pixels themselves belong to
    the imaging library; the model records the drawing operations. */
module Compositor {
  import opened Layout

  datatype Option<T> = None | Some(value: T)

  datatype Rgb = Rgb(red: int, green: int, blue: int)

  datatype Rgba = Rgba(color: Rgb, alpha: int)

  /** One drawing call on the overlay layer. */
  datatype DrawOp =
    | FillRect(box: Rect, fill: Rgba)
    | DrawText(at: Point, text: string, fill: Rgba)

  /** The values of the input widgets when Apply is pressed: the entry text,
      the position selector's label and the two opacity sliders (percent). */
  datatype Controls = Controls(text: string, position: string, textOpacity: int, bgOpacity: int)
  {
    /** The sliders' ranges: text 10..100, background 0..100; within them
        the text alpha is at least 25 and both alphas fit in 8 bits. */
    predicate InSliderRanges()
      ensures InSliderRanges() ==>
        0 <= bgOpacity <= 100 && 10 <= textOpacity <= 100 && 25 <= Alpha(textOpacity) && Alpha(bgOpacity) <= 255
    {
      10 <= textOpacity <= 100 && 0 <= bgOpacity <= 100
    }
  }

  /** The result of compositing the overlay `layer`, drawn in order on a
      transparent layer of `size`, onto the image read from `source`. */
  datatype Watermarked = Watermarked(source: string, size: Extent, layer: seq<DrawOp>)

  /** The background box is drawn only when a colour is chosen and the
      background slider is above zero. */
  predicate DrawsBackground(bgColor: Option<Rgb>, bgOpacity: int)
    ensures bgColor.None? || bgOpacity <= 0 ==> !DrawsBackground(bgColor, bgOpacity)
    ensures DrawsBackground(bgColor, bgOpacity) && bgOpacity <= 100 ==> 2 <= Alpha(bgOpacity)
  {
    bgColor.Some? && bgOpacity > 0
  }

  /** Where the text is drawn for this position label on an image of
      `size`: the measured extent is placed with its corner there. */
  function TextAnchor(size: Extent, bbox: BBox, position: string): (p: Point)
    ensures position == "Top Left" ==> p == Point(Margin, Margin)
    ensures position == "Top Right" ==>
      p.x + (bbox.right - bbox.left) + Margin == size.width && p.y == Margin
    ensures position == "Bottom Left" ==>
      p.x == Margin && p.y + (bbox.bottom - bbox.top) + Margin == size.height
    ensures position == "Bottom Right" ==>
      && p.x + (bbox.right - bbox.left) + Margin == size.width
      && p.y + (bbox.bottom - bbox.top) + Margin == size.height
    ensures ParsePosition(position) == Center ==>
      Centred(p.x, bbox.right - bbox.left, size.width) && Centred(p.y, bbox.bottom - bbox.top, size.height)
  {
    Anchor(ParsePosition(position), size, TextExtent(bbox))
  }

  /** The drawing operations on the overlay, in the order they are made. */
  function Layer(size: Extent, bbox: BBox, controls: Controls, textColor: Rgb, bgColor: Option<Rgb>): (layer: seq<DrawOp>)
    requires controls.InSliderRanges()
    ensures |layer| == if DrawsBackground(bgColor, controls.bgOpacity) then 2 else 1
  {
    var at := TextAnchor(size, bbox, controls.position);
    var text := DrawText(at, controls.text, Rgba(textColor, Alpha(controls.textOpacity)));
    if DrawsBackground(bgColor, controls.bgOpacity) then
      [FillRect(BackgroundBox(at, TextExtent(bbox)), Rgba(bgColor.value, Alpha(controls.bgOpacity))), text]
    else
      [text]
  }

  /** The text is drawn exactly once, as the last operation, at the anchor,
      in the text colour with the text slider's alpha (25..255). */
  lemma TextDrawnLast(size: Extent, bbox: BBox, controls: Controls, textColor: Rgb, bgColor: Option<Rgb>)
    requires controls.InSliderRanges()
    ensures var layer := Layer(size, bbox, controls, textColor, bgColor);
      && layer[|layer| - 1] == DrawText(TextAnchor(size, bbox, controls.position), controls.text,
                                        Rgba(textColor, Alpha(controls.textOpacity)))
      && (forall i :: 0 <= i < |layer| - 1 ==> !layer[i].DrawText?)
      && 25 <= layer[|layer| - 1].fill.alpha <= 255
  {
    TextAlphaRange(controls.textOpacity);
  }

  /** A background rectangle appears on the layer if and only if a colour
      is chosen and the background slider is above zero. */
  lemma BackgroundGated(size: Extent, bbox: BBox, controls: Controls, textColor: Rgb, bgColor: Option<Rgb>)
    requires controls.InSliderRanges()
    ensures var layer := Layer(size, bbox, controls, textColor, bgColor);
      (exists i :: 0 <= i < |layer| && layer[i].FillRect?) <==> DrawsBackground(bgColor, controls.bgOpacity)
  {
    var layer := Layer(size, bbox, controls, textColor, bgColor);
    if DrawsBackground(bgColor, controls.bgOpacity) {
      assert layer[0].FillRect?;
    }
  }

  /** Every background rectangle is drawn before the text, so the text is
      never covered by its own background. */
  lemma BackgroundBeneathText(size: Extent, bbox: BBox, controls: Controls, textColor: Rgb, bgColor: Option<Rgb>)
    requires controls.InSliderRanges()
    ensures var layer := Layer(size, bbox, controls, textColor, bgColor);
      forall i, j :: 0 <= i < |layer| && 0 <= j < |layer| && layer[i].FillRect? && layer[j].DrawText? ==> i < j
  {
  }

  /** A drawn background box surrounds the extent placed at the anchor
      with Padding on every side and is filled with the background colour at
      a visible alpha. */
  lemma BackgroundGeometry(size: Extent, bbox: BBox, controls: Controls, textColor: Rgb, bgColor: Option<Rgb>, i: int)
    requires controls.InSliderRanges()
    requires 0 <= i < |Layer(size, bbox, controls, textColor, bgColor)|
    requires Layer(size, bbox, controls, textColor, bgColor)[i].FillRect?
    ensures var op := Layer(size, bbox, controls, textColor, bgColor)[i];
            var at := TextAnchor(size, bbox, controls.position);
      && Encloses(op.box, TextBox(at, TextExtent(bbox)), Padding)
      && op.box == BackgroundBox(at, TextExtent(bbox))
      && bgColor.Some? && op.fill == Rgba(bgColor.value, Alpha(controls.bgOpacity))
      && 2 <= op.fill.alpha <= 255
  {
    PositiveOpacityIsVisible(controls.bgOpacity);
  }

  /** As drawn, the text's ink lies inside its background box exactly when
      the rasteriser's offsets `bbox.left` and `bbox.top` are within Padding
      of zero; a larger top offset (common for large font sizes) makes the
      text stick out below its background. */
  lemma TextInsideBackgroundAsWritten(size: Extent, bbox: BBox, controls: Controls, textColor: Rgb, bgColor: Option<Rgb>)
    requires controls.InSliderRanges()
    requires DrawsBackground(bgColor, controls.bgOpacity)
    ensures var layer := Layer(size, bbox, controls, textColor, bgColor);
      && layer[0].FillRect? && layer[1].DrawText?
      && (Encloses(layer[0].box, InkBox(layer[1].at, bbox), 0)
          <==> -Padding <= bbox.left <= Padding && -Padding <= bbox.top <= Padding)
  {
    InkOffsetFromBackground(TextAnchor(size, bbox, controls.position), bbox);
  }

  /** The overlay with the text drawn at the corrected origin, so that its
      ink starts at the anchor; otherwise the same calls as `Layer`. */
  function CorrectedLayer(size: Extent, bbox: BBox, controls: Controls, textColor: Rgb, bgColor: Option<Rgb>): (layer: seq<DrawOp>)
    requires controls.InSliderRanges()
    ensures |layer| == |Layer(size, bbox, controls, textColor, bgColor)|
    ensures forall i :: 0 <= i < |layer| - 1 ==> layer[i] == Layer(size, bbox, controls, textColor, bgColor)[i]
  {
    var at := TextAnchor(size, bbox, controls.position);
    var text := DrawText(CorrectedOrigin(at, bbox), controls.text, Rgba(textColor, Alpha(controls.textOpacity)));
    if DrawsBackground(bgColor, controls.bgOpacity) then
      [FillRect(BackgroundBox(at, TextExtent(bbox)), Rgba(bgColor.value, Alpha(controls.bgOpacity))), text]
    else
      [text]
  }

  /** With the corrected origin, the text's ink lies inside every background
      box with exactly Padding to spare, and its ink starts at the anchor,
      whatever the rasteriser's offsets. */
  lemma CorrectedTextInsideBackground(size: Extent, bbox: BBox, controls: Controls, textColor: Rgb, bgColor: Option<Rgb>)
    requires controls.InSliderRanges()
    ensures var layer := CorrectedLayer(size, bbox, controls, textColor, bgColor);
            var text := layer[|layer| - 1];
      && text.DrawText?
      && InkBox(text.at, bbox) == TextBox(TextAnchor(size, bbox, controls.position), TextExtent(bbox))
      && (forall i :: 0 <= i < |layer| && layer[i].FillRect? ==> Encloses(layer[i].box, InkBox(text.at, bbox), Padding))
  {
  }
}
