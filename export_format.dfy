/** Choice of how the result is handed to the encoder: for a path whose
    lower-cased form ends in ".jpg" or ".jpeg" the alpha band is dropped
    first (a conversion to RGB, not a composite onto a background); every
    other path is passed to the encoder unconverted (RGBA), and the
    extension alone picks the encoder. */
module ExportFormat {

  /** `FlattenToRgb`: the alpha band is dropped before encoding.
      `AsIs`: the RGBA image goes to the encoder unconverted. */
  datatype ExportMode = FlattenToRgb | AsIs

  /** Lower-casing of one character; only the letters A-Z change. */
  function LowerChar(c: char): (d: char)
    ensures 'A' <= c <= 'Z' ==> d as int == c as int + 32
    ensures !('A' <= c <= 'Z') ==> d == c
  {
    if 'A' <= c <= 'Z' then (c as int + 32) as char else c
  }

  function Lower(s: string): (r: string)
    ensures |r| == |s|
    ensures forall i :: 0 <= i < |s| ==> r[i] == LowerChar(s[i])
  {
    if s == [] then [] else [LowerChar(s[0])] + Lower(s[1..])
  }

  /** `s` ends in `suffix`; the empty suffix ends every string. */
  predicate EndsWith(s: string, suffix: string) {
    |suffix| <= |s| && s[|s| - |suffix|..] == suffix
  }

  /** The suffix test made on the save path. */
  predicate IsJpegPath(path: string)
    ensures IsJpegPath(path) ==> 4 <= |path|
    ensures IsJpegPath(path) ==> path[|path| - 1] == 'g' || path[|path| - 1] == 'G'
  {
    var p := Lower(path);
    EndsWith(p, ".jpg") || EndsWith(p, ".jpeg")
  }

  function ModeFor(path: string): (m: ExportMode)
    ensures m == FlattenToRgb <==> IsJpegPath(path)
  {
    if IsJpegPath(path) then FlattenToRgb else AsIs
  }

  lemma LowerIdempotent(s: string)
    ensures Lower(Lower(s)) == Lower(s)
  {
    var l := Lower(s);
    forall i | 0 <= i < |s|
      ensures Lower(l)[i] == l[i]
    {
      assert l[i] == LowerChar(s[i]);
    }
  }

  /** The choice ignores letter case: a path and its lower-cased form are
      written the same way. */
  lemma ModeIgnoresCase(path: string)
    ensures ModeFor(Lower(path)) == ModeFor(path)
  {
    LowerIdempotent(path);
  }

  /** Whatever precedes it, an extension that lower-cases to ".jpg" or
      ".jpeg" ("photo.JPG", "a.Jpeg", ...) has its alpha band dropped before encoding. */
  lemma JpegExtensionFlattens(stem: string, ext: string)
    requires Lower(ext) == ".jpg" || Lower(ext) == ".jpeg"
    ensures ModeFor(stem + ext) == FlattenToRgb
  {
    var p := Lower(stem + ext);
    assert p[|p| - |ext|..] == Lower(ext);
  }

  /** Whatever precedes it, a ".png" extension (in any letter case) is
      passed to the encoder unconverted, with its alpha band. */
  lemma PngExtensionKeepsAlpha(stem: string, ext: string)
    requires Lower(ext) == ".png"
    ensures ModeFor(stem + ext) == AsIs
  {
    var p := Lower(stem + ext);
    assert p[|p| - 1] == 'g' && p[|p| - 2] == 'n';
  }
}
