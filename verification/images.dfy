/**
 * `getImageSrc`, written out identically in the order history and the
 * overview page: a product image stored as base64 becomes a `data:` URL.
 */
module Images {
  import opened Text

  const Placeholder := "assets/placeholder.jpg"
  const DataImagePrefix := "data:image"
  const JpegPrefix := "data:image/jpeg;base64,"

  /**
   * The empty string (the one falsy string) gives the placeholder, a value
   * that is already a `data:image` URL is kept, anything else is taken to be
   * bare JPEG base64.
   */
  function GetImageSrc(base64Image: string): (r: string)
    ensures base64Image == "" ==> r == Placeholder
    ensures base64Image != "" && StartsWith(base64Image, DataImagePrefix) ==> r == base64Image
    ensures base64Image != "" && !StartsWith(base64Image, DataImagePrefix) ==> r == JpegPrefix + base64Image
    ensures base64Image != "" ==> StartsWith(r, DataImagePrefix)
  {
    if base64Image == "" then Placeholder
    else if StartsWith(base64Image, DataImagePrefix) then base64Image
    else
      StartsWithAppend(JpegPrefix, base64Image);
      assert StartsWith(JpegPrefix, DataImagePrefix);
      JpegPrefix + base64Image
  }

  /** On a non-empty value, a second application changes nothing. */
  lemma ImageSrcIdempotent(base64Image: string)
    requires base64Image != ""
    ensures GetImageSrc(GetImageSrc(base64Image)) == GetImageSrc(base64Image)
  {
  }

  /** On the empty value it is not idempotent: the placeholder path is not a `data:image` URL and gets the JPEG prefix. */
  lemma ImageSrcNotIdempotentOnEmpty()
    ensures GetImageSrc(GetImageSrc("")) == JpegPrefix + Placeholder
    ensures GetImageSrc(GetImageSrc("")) != GetImageSrc("")
  {
    assert Placeholder[0] != DataImagePrefix[0];
  }
}
