/** The fixed settings of the tool: where files live, which file names count as
    images, and the colour palette for classes. */
module Config {

  /** The data directory, relative to the installation directory. */
  const DataDir: string := "data"
  const UploadsDir: string := DataDir + "/uploads"
  const AnnotationsDir: string := DataDir + "/annotations"

  /** The suffixes a listed image file name may end with. */
  const ImageExtensions: seq<string> := [".jpg", ".jpeg", ".png", ".bmp", ".tiff"]

  /** One colour per class id, reused every ten ids. */
  const ClassColors: seq<string> := [
    "#FF0000", "#00FF00", "#0000FF", "#FFFF00", "#FF00FF",
    "#00FFFF", "#FFA500", "#800080", "#008000", "#000080"
  ]

  predicate IsHexDigit(c: char) {
    ('0' <= c <= '9') || ('a' <= c <= 'f') || ('A' <= c <= 'F')
  }

  /** "#RRGGBB": a hash and six hexadecimal digits. */
  predicate IsHexColor(s: string) {
    |s| == 7 && s[0] == '#' && forall i :: 1 <= i < 7 ==> IsHexDigit(s[i])
  }

  /** The palette has ten entries, each "#" and six hexadecimal digits. */
  lemma PaletteWellFormed()
    ensures |ClassColors| == 10
    ensures forall k :: 0 <= k < |ClassColors| ==> IsHexColor(ClassColors[k])
  {
    assert forall k :: 0 <= k < 10 ==> |ClassColors[k]| == 7 && ClassColors[k][0] == '#';
  }

  /** The colour for a class id: the palette entry at the id modulo ten. Python's
      `%` with a positive divisor is never negative, so negative ids get a colour too. */
  function GetClassColor(classIdx: int): (c: string)
    ensures IsHexColor(c)
  {
    PaletteWellFormed();
    ClassColors[classIdx % |ClassColors|]
  }

  /** Every id, negative ones included, gets the palette entry at its
      remainder modulo ten, so every colour drawn is a palette colour. */
  lemma ColorFromPalette(classIdx: int)
    ensures 0 <= classIdx % 10 < 10 && GetClassColor(classIdx) == ClassColors[classIdx % 10]
    ensures GetClassColor(classIdx) in ClassColors
  {
  }

  /** Ids ten apart share a colour. */
  lemma ColorPeriodic(classIdx: int)
    ensures GetClassColor(classIdx) == GetClassColor(classIdx + 10)
  {
    assert (classIdx + 10) % 10 == classIdx % 10;
  }

  /** A negative id counts back from the end of the palette. */
  lemma NegativeColor(classIdx: int)
    requires -10 <= classIdx < 0
    ensures GetClassColor(classIdx) == ClassColors[10 + classIdx]
  {
    assert classIdx % 10 == 10 + classIdx;
  }
}
