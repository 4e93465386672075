/** The application state behind the window and its button handlers. The
    answers of the file and colour dialogs and the imaging library's
    results arrive as parameters; the handlers' field updates and guards are
    modelled as they are made. */
module App {
  import opened Layout
  import opened Compositor
  import opened ExportFormat

  /** Default text colour: white. */
  const White: Rgb := Rgb(255, 255, 255)

  /** The controls as the window first shows them, with `text` typed in:
      position "Center", text opacity 50, background opacity 0. */
  function DefaultControls(text: string): (c: Controls)
    ensures c.text == text && c.InSliderRanges()
    ensures ParsePosition(c.position) == Center
    ensures Alpha(c.textOpacity) == 127
    ensures forall color: Option<Rgb> :: !DrawsBackground(color, c.bgOpacity)
  {
    Controls(text, "Center", 50, 0)
  }

  /** How a press of "Apply Watermark" ends. */
  datatype ApplyOutcome =
    | NoImage       // "Please upload an image first"
    | NoText        // "Please enter watermark text"
    | RenderFailed  // the imaging library raised; the error is shown
    | Applied

  /** How a press of "Save Image" ends; `Write` is the encoder call made. */
  datatype SaveOutcome =
    | NothingToSave  // "No watermarked image to save"
    | SaveCancelled  // the save dialog was dismissed
    | Write(path: string, image: Watermarked, mode: ExportMode)

  class WatermarkApp {
    var imagePath: Option<string>
    var watermarkedImage: Option<Watermarked>
    var watermarkColor: Rgb
    var bgColor: Option<Rgb>

    constructor ()
      ensures imagePath == None && watermarkedImage == None
      ensures watermarkColor == White && bgColor == None
    {
      imagePath := None;
      watermarkedImage := None;
      watermarkColor := White;
      bgColor := None;
    }

    /** The truthiness test on the image path: no path and the empty
        path both count as "no image". */
    predicate HasImage()
      reads this
      ensures imagePath == None ==> !HasImage()
      ensures imagePath == Some("") ==> !HasImage()
      ensures imagePath.Some? && |imagePath.value| > 0 ==> HasImage()
    {
      imagePath.Some? && imagePath.value != ""
    }

    /** `chosen` is the open dialog's answer, "" when it was cancelled. */
    method UploadImage(chosen: string)
      modifies this`imagePath
      ensures chosen != "" ==> imagePath == Some(chosen) && HasImage()
      ensures chosen == "" ==> imagePath == old(imagePath)
    {
      if chosen != "" {
        imagePath := Some(chosen);
      }
    }

    /** `picked` is the colour chooser's answer, None when cancelled:
        cancelling keeps the current text colour. */
    method ChooseTextColor(picked: Option<Rgb>)
      modifies this`watermarkColor
      ensures picked.Some? ==> watermarkColor == picked.value
      ensures picked.None? ==> watermarkColor == old(watermarkColor)
    {
      if picked.Some? {
        watermarkColor := picked.value;
      }
    }

    /** Cancelling the background colour chooser removes the background. */
    method ChooseBgColor(picked: Option<Rgb>)
      modifies this`bgColor
      ensures picked.Some? ==> bgColor == picked
      ensures picked.None? ==> bgColor == None
    {
      if picked.Some? {
        bgColor := Some(picked.value);
      } else {
        bgColor := None;
      }
    }

    /** `decoded` is the size of the image decoded from `imagePath`, None
        when the imaging library raises; `bbox` is the text's bounding box
        as the rasteriser measures it for the chosen font. */
    method ApplyWatermark(controls: Controls, decoded: Option<Extent>, bbox: BBox) returns (outcome: ApplyOutcome)
      requires controls.InSliderRanges()
      modifies this`watermarkedImage
      ensures outcome == NoImage <==> !HasImage()
      ensures outcome == NoText <==> HasImage() && controls.text == ""
      ensures outcome == RenderFailed <==> HasImage() && controls.text != "" && decoded.None?
      ensures outcome != Applied ==> watermarkedImage == old(watermarkedImage)
      ensures outcome == Applied ==>
        && decoded.Some? && imagePath.Some?
        && watermarkedImage == Some(Watermarked(imagePath.value, decoded.value,
                                     Layer(decoded.value, bbox, controls, watermarkColor, bgColor)))
    {
      if !HasImage() {
        return NoImage;
      }
      if controls.text == "" {
        return NoText;
      }
      if decoded.None? {
        return RenderFailed;
      }
      var size := decoded.value;
      var layer := Layer(size, bbox, controls, watermarkColor, bgColor);
      watermarkedImage := Some(Watermarked(imagePath.value, size, layer));
      outcome := Applied;
    }

    /** `chosen` is the save dialog's answer, "" when it was cancelled; the
        dialog is only shown when there is a result to save. */
    method SaveImage(chosen: string) returns (outcome: SaveOutcome)
      ensures watermarkedImage.None? ==> outcome == NothingToSave
      ensures watermarkedImage.Some? && chosen == "" ==> outcome == SaveCancelled
      ensures watermarkedImage.Some? && chosen != "" ==>
        && outcome.Write? && outcome.path == chosen && outcome.image == watermarkedImage.value
        && (outcome.mode == FlattenToRgb <==> IsJpegPath(chosen))
    {
      if watermarkedImage.None? {
        return NothingToSave;
      }
      if chosen == "" {
        return SaveCancelled;
      }
      outcome := Write(chosen, watermarkedImage.value, ModeFor(chosen));
    }
  }

  /** Apply on a fresh window, before any image is chosen, is refused
      whatever the text, and leaves nothing to save. */
  method ApplyBeforeUpload(controls: Controls, decoded: Option<Extent>, bbox: BBox)
    returns (applied: ApplyOutcome, saved: SaveOutcome)
    requires controls.InSliderRanges()
    ensures applied == NoImage && saved == NothingToSave
  {
    var app := new WatermarkApp();
    applied := app.ApplyWatermark(controls, decoded, bbox);
    saved := app.SaveImage("out.png");
  }

  /** On a new window with the initial controls, an upload, an apply and a
      save to a ".JPEG" path write the decoded image's size, made from the
      uploaded path, with only the white text at alpha 127, centred, and
      with the alpha band dropped. */
  method UploadApplySave(path: string, text: string, size: Extent, bbox: BBox, stem: string)
    returns (saved: SaveOutcome)
    requires path != "" && text != ""
    ensures saved.Write? && saved.mode == FlattenToRgb
    ensures saved.image.size == size && saved.image.source == path
    ensures saved.image.layer == [DrawText(TextAnchor(size, bbox, "Center"), text, Rgba(White, 127))]
  {
    var app := new WatermarkApp();
    app.UploadImage(path);
    var applied := app.ApplyWatermark(DefaultControls(text), Some(size), bbox);
    assert applied == Applied;
    JpegExtensionFlattens(stem, ".JPEG");
    saved := app.SaveImage(stem + ".JPEG");
  }
}
