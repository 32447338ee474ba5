/** The source image check: the icon must be square and at least 1024 pixels wide. */
module ImageValidator {
  import opened Wrappers

  /** What the image library reports about a file. */
  datatype Metadata = Metadata(width: int, height: int, format: string, hasAlpha: bool)

  const MinSide: int := 1024

  /** `meta` is the library's report, None when the file cannot be read as an image;
      an unreadable file is rejected rather than raising an error. */
  function ValidateImage(meta: Option<Metadata>): (ok: bool)
    ensures ok ==> meta.Some? && meta.value.width == meta.value.height >= MinSide
    ensures meta.Some? && meta.value.width == meta.value.height >= MinSide ==> ok
  {
    match meta
    case None => false
    case Some(m) => m.width >= MinSide && m.height >= MinSide && m.width == m.height
  }

  lemma ValidationExamples(format: string, hasAlpha: bool)
    ensures !ValidateImage(None)
    ensures !ValidateImage(Some(Metadata(1023, 1023, format, hasAlpha)))
    ensures ValidateImage(Some(Metadata(1024, 1024, format, hasAlpha)))
    ensures !ValidateImage(Some(Metadata(2048, 1024, format, hasAlpha)))
    ensures !ValidateImage(Some(Metadata(1024, 2048, format, hasAlpha)))
  {
  }

  /** A valid square stays valid at any larger square size, and no non-square is valid. */
  lemma ValidImagesAreLargeSquares(m: Metadata, side: int)
    requires ValidateImage(Some(m))
    requires side >= m.width
    ensures m.width == m.height
    ensures ValidateImage(Some(Metadata(side, side, m.format, m.hasAlpha)))
  {
  }
}
