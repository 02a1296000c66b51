/** `evidence_rules.py`: the kind of an image, its completeness, its size, and the removal of its metadata. */
module Images {
  import opened Prelude
  import opened ImageBytes
  import Png = PngImages
  import Jpeg = JpegImages
  import Webp = WebpImages

  datatype Kind = PNG | JPEG | WEBP

  /** `image_kind`. */
  function ImageKind(data: Bytes): (kind: Option<Kind>)
    ensures kind == Some(PNG) ==> |data| >= 8
    ensures kind == Some(JPEG) ==> |data| >= 3
    ensures kind == Some(WEBP) ==> |data| >= 12
  {
    if |data| >= 8 && data[..8] == Png.SIGNATURE then Some(PNG)
    else if |data| >= 3 && data[0] == 0xFF && data[1] == 0xD8 && data[2] == 0xFF then Some(JPEG)
    else if |data| >= 12 && data[..4] == Webp.RIFF && data[8..12] == Webp.WEBP then Some(WEBP)
    else None
  }

  /** `strip_image_metadata`; none is the refusal with status 415. */
  function StripMetadata(data: Bytes): Option<Stripped> {
    match ImageKind(data)
    case None => None
    case Some(PNG) => Png.Strip(data)
    case Some(JPEG) => Jpeg.Strip(data)
    case Some(WEBP) => Webp.Strip(data)
  }

  /** `image_size`; none is the refusal with status 422. */
  function ImageSize(data: Bytes): Option<(nat, nat)> {
    match ImageKind(data)
    case None => None
    case Some(PNG) => Png.Size(data)
    case Some(JPEG) => Jpeg.SizeFrom(data[2..])
    case Some(WEBP) => Webp.Size(data)
  }

  /** The length that a WebP's header declares, on which `image_complete` insists. */
  predicate RightLength(data: Bytes) {
    |data| >= 12 && Little32(data[4..8]) + 8 == |data|
  }

  /** What a caller can check for a JPEG: some piece of it is not metadata. */
  predicate LeavesAnImage(data: Bytes) {
    ImageKind(data) == Some(JPEG) ==> Jpeg.Survives(data)
  }

  lemma PngStays(data: Bytes)
    requires ImageKind(data) == Some(PNG) && StripMetadata(data).Some?
    ensures var out := StripMetadata(data).value.bytes;
            ImageKind(out) == Some(PNG) && StripMetadata(out) == Some(Stripped(out, 0))
  {
    hide Png.Strip;
    Png.StripIsIdempotent(data);
  }

  lemma JpegStays(data: Bytes)
    requires ImageKind(data) == Some(JPEG) && StripMetadata(data).Some?
    ensures var out := StripMetadata(data).value.bytes;
            if Jpeg.Survives(data) then ImageKind(out) == Some(JPEG) && StripMetadata(out) == Some(Stripped(out, 0))
            else ImageKind(out) == None && StripMetadata(out) == None
  {
    hide Jpeg.Strip, Jpeg.Survives;
    Jpeg.StripIsIdempotent(data);
    Jpeg.StartsLikeJpegIff(data);
    var out := StripMetadata(data).value.bytes;
    assert out[0] == out[..2][0] == data[..2][0] && out[1] == out[..2][1] == data[..2][1];
    assert |out| >= 8 ==> out[..8][0] == out[0] && Png.SIGNATURE[0] != 0xFF;
    assert |out| >= 12 ==> out[..4][0] == out[0] && Webp.RIFF[0] != 0xFF;
  }

  lemma WebpStays(data: Bytes)
    requires ImageKind(data) == Some(WEBP) && StripMetadata(data).Some?
    ensures var out := StripMetadata(data).value.bytes;
            && ImageKind(out) == Some(WEBP) && StripMetadata(out) == Some(Stripped(out, 0)) && RightLength(out)
  {
    hide Webp.Strip, Little32;
    Webp.StripHeader(data);
    Webp.StripIsIdempotent(data);
    var out := StripMetadata(data).value.bytes;
    assert out[..4][0] == out[0] && out[..4] == Webp.RIFF;
    assert out[..8][0] == out[0];
  }

  /**
   * Stripping keeps the kind, and stripping again removes nothing and changes no byte: exactly when something of the
   * image is left, which only a JPEG made of metadata alone fails. A stripped WebP has the right length.
   */
  lemma StrippingTwiceIsStrippingOnce(data: Bytes)
    requires StripMetadata(data).Some?
    ensures var out := StripMetadata(data).value.bytes;
            && (ImageKind(out) == ImageKind(data) <==> LeavesAnImage(data))
            && (StripMetadata(out) == Some(Stripped(out, 0)) <==> LeavesAnImage(data))
            && (ImageKind(data) == Some(WEBP) ==> RightLength(out))
  {
    hide Png.Strip, Jpeg.Strip, Webp.Strip, Jpeg.Survives, RightLength;
    match ImageKind(data)
    case Some(PNG) => PngStays(data);
    case Some(JPEG) => JpegStays(data);
    case Some(WEBP) => WebpStays(data);
  }

  /**
   * The header piece that the size is read from is long enough to hold it: what the headers of which every file keeps
   * its size have in common (`HeaderHoldsSizeIff` and `FrameHoldsSizeIff` of the three formats).
   */
  predicate HoldsSize(data: Bytes) {
    match ImageKind(data)
    case None => false
    case Some(PNG) => |data| >= 12 && Big32(data[8..12]) >= 4
    case Some(JPEG) => Jpeg.Pieces(data[2..]).Some? && Jpeg.LongFrame(Jpeg.Pieces(data[2..]).value)
    case Some(WEBP) => Webp.HoldsSize(data)
  }

  /** A defined size is kept, and with it the kind. */
  lemma StrippingKeepsSize(data: Bytes)
    requires StripMetadata(data).Some? && ImageSize(data).Some? && HoldsSize(data)
    ensures ImageSize(StripMetadata(data).value.bytes) == ImageSize(data) && LeavesAnImage(data)
  {
    hide Png.Strip, Jpeg.Strip, Webp.Strip, Jpeg.Survives, RightLength, ImageKind, Webp.HoldsSize, Jpeg.LongFrame;
    hide Png.Size, Webp.Size, Jpeg.SizeFrom, Jpeg.Pieces;
    StrippingTwiceIsStrippingOnce(data);
    match ImageKind(data)
    case Some(PNG) => Png.StripKeepsSize(data);
    case Some(JPEG) =>
      Jpeg.StripKeepsSize(data);
      Jpeg.SizeSurvives(data);
    case Some(WEBP) => Webp.StripKeepsSize(data);
  }

  /** `strip_image_metadata` as it runs. */
  method StripImage(data: Bytes) returns (r: Option<Stripped>)
    ensures r == StripMetadata(data)
  {
    var kind := ImageKind(data);
    if kind == Some(PNG) {
      r := Png.StripPng(data);
    } else if kind == Some(JPEG) {
      r := Jpeg.StripJpeg(data);
    } else if kind == Some(WEBP) {
      r := Webp.StripWebp(data);
    } else {
      r := None;
    }
  }
}
