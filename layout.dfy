/** Placement arithmetic of a watermark: the text extent taken from the
    rasteriser's bounding box, the anchor chosen by the position setting,
    the background box drawn around the text, and the mapping from an
    opacity slider (a percentage) to an 8-bit alpha value. */
module Layout {

  /** Gap kept between a corner-anchored text box and the image edges. */
  const Margin: int := 20

  /** Gap between the text box and the border of its background box. */
  const Padding: int := 10

  datatype Extent = Extent(width: int, height: int)

  datatype Point = Point(x: int, y: int)

  /** A bounding box `[left, top, right, bottom]` as the text rasteriser
      measures it for text drawn at the origin. */
  datatype BBox = BBox(left: int, top: int, right: int, bottom: int)

  /** A rectangle given by its corners `[x0, y0, x1, y1]`. */
  datatype Rect = Rect(x0: int, y0: int, x1: int, y1: int)

  datatype Position = TopLeft | TopRight | BottomLeft | BottomRight | Center

  /** Size of the rendered text: the span of its bounding box. */
  function TextExtent(b: BBox): (e: Extent)
    ensures b.left + e.width == b.right && b.top + e.height == b.bottom
    ensures b.left <= b.right && b.top <= b.bottom ==> e.width >= 0 && e.height >= 0
  {
    Extent(b.right - b.left, b.bottom - b.top)
  }

  /** The position selector's labels; any other label (including "Center")
      falls through to centring. */
  function ParsePosition(name: string): (p: Position)
    ensures p == TopLeft <==> name == "Top Left"
    ensures p == TopRight <==> name == "Top Right"
    ensures p == BottomLeft <==> name == "Bottom Left"
    ensures p == BottomRight <==> name == "Bottom Right"
  {
    if name == "Top Left" then TopLeft
    else if name == "Top Right" then TopRight
    else if name == "Bottom Left" then BottomLeft
    else if name == "Bottom Right" then BottomRight
    else Center
  }

  /** A span of length `len` placed at `at` within `[0, total)` leaves a
      leading gap `at` and a trailing gap `total - len - at`; it is centred
      when the trailing gap equals the leading one or exceeds it by one
      (the odd unit goes after the text). */
  predicate Centred(at: int, len: int, total: int) {
    var lead, trail := at, total - len - at;
    trail == lead || trail == lead + 1
  }

  /** Top-left corner of the text box for `pos` on an image of size
      `image`, for text of size `text`. */
  function Anchor(pos: Position, image: Extent, text: Extent): (p: Point)
    ensures pos == TopLeft || pos == BottomLeft ==> p.x == Margin
    ensures pos == TopRight || pos == BottomRight ==> p.x + text.width + Margin == image.width
    ensures pos == TopLeft || pos == TopRight ==> p.y == Margin
    ensures pos == BottomLeft || pos == BottomRight ==> p.y + text.height + Margin == image.height
    ensures pos == Center ==> Centred(p.x, text.width, image.width) && Centred(p.y, text.height, image.height)
  {
    match pos
    case TopLeft => Point(Margin, Margin)
    case TopRight => Point(image.width - text.width - Margin, Margin)
    case BottomLeft => Point(Margin, image.height - text.height - Margin)
    case BottomRight => Point(image.width - text.width - Margin, image.height - text.height - Margin)
    case Center => Point((image.width - text.width) / 2, (image.height - text.height) / 2)
  }

  /** Centring has exactly one solution, and it is floor division by two,
      for a span wider than the whole (a negative difference) too. */
  lemma CentredIsFloorHalf(at: int, len: int, total: int)
    ensures Centred(at, len, total) <==> at == (total - len) / 2
  {
    var d := total - len;
    assert d == 2 * (d / 2) + d % 2 && 0 <= d % 2 < 2;
  }

  /** "Top Left" places the text at (Margin, Margin) whatever the sizes. */
  lemma TopLeftIsFixed(image: Extent, text: Extent)
    ensures Anchor(ParsePosition("Top Left"), image, text) == Point(Margin, Margin)
  {
  }

  /** Any label other than the four corners centres the text, by floor
      division of the free space in each direction. */
  lemma OtherLabelsCentre(name: string, image: Extent, text: Extent)
    requires name != "Top Left" && name != "Top Right"
    requires name != "Bottom Left" && name != "Bottom Right"
    ensures Anchor(ParsePosition(name), image, text)
         == Point((image.width - text.width) / 2, (image.height - text.height) / 2)
  {
    var p := Anchor(ParsePosition(name), image, text);
    CentredIsFloorHalf(p.x, text.width, image.width);
    CentredIsFloorHalf(p.y, text.height, image.height);
  }

  /** A 40x10 text box centred on a 100x50 image starts at (30, 20). */
  lemma CentreExample()
    ensures Anchor(Center, Extent(100, 50), Extent(40, 10)) == Point(30, 20)
  {
  }

  /** The rectangle drawn behind the text at `at`. */
  function BackgroundBox(at: Point, text: Extent): (r: Rect)
    ensures at.x - r.x0 == Padding && at.y - r.y0 == Padding
    ensures r.x1 - (at.x + text.width) == Padding && r.y1 - (at.y + text.height) == Padding
  {
    Rect(at.x - Padding, at.y - Padding, at.x + text.width + Padding, at.y + text.height + Padding)
  }

  /** `outer` contains `inner` with at least `gap` to spare on every side. */
  predicate Encloses(outer: Rect, inner: Rect, gap: int) {
    outer.x0 + gap <= inner.x0 && inner.x1 + gap <= outer.x1 &&
    outer.y0 + gap <= inner.y0 && inner.y1 + gap <= outer.y1
  }

  /** The measured extent `text` placed with its corner at `at`. This is
      where the text lands only when its bounding box starts at the origin;
      see `InkBox` for where it lands in general. */
  function TextBox(at: Point, text: Extent): Rect {
    Rect(at.x, at.y, at.x + text.width, at.y + text.height)
  }

  /** The background box encloses the extent placed at the anchor with
      exactly Padding on each side, and it is never an empty rectangle for
      measured text. */
  lemma BackgroundEnclosesText(at: Point, text: Extent)
    requires text.width >= 0 && text.height >= 0
    ensures Encloses(BackgroundBox(at, text), TextBox(at, text), Padding)
    ensures !Encloses(BackgroundBox(at, text), TextBox(at, text), Padding + 1)
    ensures BackgroundBox(at, text).x0 < BackgroundBox(at, text).x1
    ensures BackgroundBox(at, text).y0 < BackgroundBox(at, text).y1
  {
  }

  /** Where text drawn at `origin` actually lands: the rasteriser measured
      `b` with the text drawn at (0, 0), so drawing it at `origin` shifts
      that box by `origin`. */
  function InkBox(origin: Point, b: BBox): (r: Rect)
    ensures r.x0 - origin.x == b.left && r.y0 - origin.y == b.top
    ensures r.x1 - r.x0 == TextExtent(b).width && r.y1 - r.y0 == TextExtent(b).height
  {
    Rect(origin.x + b.left, origin.y + b.top, origin.x + b.right, origin.y + b.bottom)
  }

  /** Text drawn at the anchor, with the background box built around the
      extent placed there, has gaps of Padding + left and Padding + top
      before it and Padding - left and Padding - top after it; so the box
      contains the text exactly when both offsets lie within Padding. */
  lemma InkOffsetFromBackground(at: Point, b: BBox)
    ensures var box, ink := BackgroundBox(at, TextExtent(b)), InkBox(at, b);
      && ink.x0 - box.x0 == Padding + b.left && box.x1 - ink.x1 == Padding - b.left
      && ink.y0 - box.y0 == Padding + b.top && box.y1 - ink.y1 == Padding - b.top
      && (Encloses(box, ink, 0) <==> -Padding <= b.left <= Padding && -Padding <= b.top <= Padding)
  {
  }

  /** At the corners, text drawn at the anchor keeps Margin + left (top)
      from the left (top) edge and Margin - left (top) from the right
      (bottom) edge, not Margin. */
  lemma InkMarginsAtCorners(image: Extent, b: BBox)
    ensures var ink := InkBox(Anchor(TopLeft, image, TextExtent(b)), b);
      ink.x0 == Margin + b.left && ink.y0 == Margin + b.top
    ensures var ink := InkBox(Anchor(TopRight, image, TextExtent(b)), b);
      image.width - ink.x1 == Margin - b.left && ink.y0 == Margin + b.top
    ensures var ink := InkBox(Anchor(BottomLeft, image, TextExtent(b)), b);
      ink.x0 == Margin + b.left && image.height - ink.y1 == Margin - b.top
    ensures var ink := InkBox(Anchor(BottomRight, image, TextExtent(b)), b);
      image.width - ink.x1 == Margin - b.left && image.height - ink.y1 == Margin - b.top
  {
  }

  /** Centred text with a bounding box of (2, 15, 202, 45) on a 400x300
      image is anchored at (100, 135); its ink ends at y = 180 while its
      background box ends at y = 175. */
  lemma TextEscapesBackgroundExample()
    ensures var b := BBox(2, 15, 202, 45);
            var at := Anchor(Center, Extent(400, 300), TextExtent(b));
      && at == Point(100, 135)
      && InkBox(at, b).y1 == 180 && BackgroundBox(at, TextExtent(b)).y1 == 175
      && !Encloses(BackgroundBox(at, TextExtent(b)), InkBox(at, b), 0)
  {
  }

  /** "Bottom Right" text with a bounding box of (0, 25, 100, 55) on a
      400x300 image is anchored at y = 250 and its ink ends at y = 305,
      past the bottom edge. */
  lemma TextPastEdgeExample()
    ensures var b := BBox(0, 25, 100, 55);
            var at := Anchor(BottomRight, Extent(400, 300), TextExtent(b));
      at.y == 250 && InkBox(at, b).y1 == 305
  {
  }

  /** The origin to draw the text at so that its ink starts at `at`. */
  function CorrectedOrigin(at: Point, b: BBox): (o: Point)
    ensures InkBox(o, b) == TextBox(at, TextExtent(b))
  {
    Point(at.x - b.left, at.y - b.top)
  }

  /** Drawn at the corrected origin, the text lies inside its background
      box with exactly Padding on each side, and corner-anchored text keeps
      exactly Margin from the edges it is anchored to, whatever the
      rasteriser's offsets. */
  lemma CorrectedPlacement(image: Extent, b: BBox, pos: Position)
    ensures var at := Anchor(pos, image, TextExtent(b));
            var ink := InkBox(CorrectedOrigin(at, b), b);
      && Encloses(BackgroundBox(at, TextExtent(b)), ink, Padding)
      && !Encloses(BackgroundBox(at, TextExtent(b)), ink, Padding + 1)
      && (pos == TopLeft ==> ink.x0 == Margin && ink.y0 == Margin)
      && (pos == TopRight ==> image.width - ink.x1 == Margin && ink.y0 == Margin)
      && (pos == BottomLeft ==> ink.x0 == Margin && image.height - ink.y1 == Margin)
      && (pos == BottomRight ==> image.width - ink.x1 == Margin && image.height - ink.y1 == Margin)
      && (pos == Center ==> Centred(ink.x0, ink.x1 - ink.x0, image.width) && Centred(ink.y0, ink.y1 - ink.y0, image.height))
  {
  }

  /** Alpha for an opacity percentage: 255 * percent / 100, truncated. */
  function Alpha(percent: int): (a: int)
    requires 0 <= percent <= 100
    ensures 0 <= a <= 255
    ensures 100 * a <= 255 * percent < 100 * a + 100
  {
    (255 * percent) / 100
  }

  lemma AlphaMonotone(v: int, w: int)
    requires 0 <= v <= w <= 100
    ensures Alpha(v) <= Alpha(w)
  {
  }

  /** The ends of the two sliders: the background slider covers 0..255,
      the text slider 25..255; 10 percent truncates to 25, not 26. */
  lemma AlphaSliderEnds()
    ensures Alpha(0) == 0 && Alpha(100) == 255
    ensures Alpha(10) == 25 && 100 * Alpha(10) < 255 * 10
  {
  }

  /** Every text-slider setting gives an alpha between 25 and 255. */
  lemma TextAlphaRange(v: int)
    requires 10 <= v <= 100
    ensures 25 <= Alpha(v) <= 255
  {
    AlphaMonotone(10, v);
  }

  /** Every positive background-slider setting gives a visible alpha. */
  lemma PositiveOpacityIsVisible(v: int)
    requires 0 < v <= 100
    ensures 2 <= Alpha(v)
  {
    AlphaMonotone(1, v);
  }
}
