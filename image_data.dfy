/**
 * `ImageData`: the RGBA bytes of a skin or cape with its width and
 * height, and the checks of the legacy skin and cape sizes.
 */
module ImageData {
  import opened Wrappers

  /** Bytes per pixel: red, green, blue, alpha (`Skin.PIXEL_SIZE`). */
  const PIXEL_SIZE: nat := 4
  /** `Skin.SINGLE_SKIN_SIZE`: 64 by 32 pixels. */
  const SINGLE_SKIN_SIZE: nat := 64 * 32 * PIXEL_SIZE
  /** `Skin.DOUBLE_SKIN_SIZE`: 64 by 64 pixels. */
  const DOUBLE_SKIN_SIZE: nat := 64 * 64 * PIXEL_SIZE
  /** `Skin.SKIN_128_64_SIZE`: 128 by 64 pixels. */
  const SKIN_128_64_SIZE: nat := 128 * 64 * PIXEL_SIZE
  /** `Skin.SKIN_128_128_SIZE`: 128 by 128 pixels. */
  const SKIN_128_128_SIZE: nat := 128 * 128 * PIXEL_SIZE

  /** An image: the constructor stores its own copy of the bytes, which a `seq` value is. */
  datatype ImageData = ImageData(width: int, height: int, image: seq<bv8>)

  /** `EMPTY`: no pixels. */
  const EMPTY: ImageData := ImageData(0, 0, [])

  /** The four legacy skin sizes. */
  predicate IsLegacySkinSize(n: nat)
  {
    n == SINGLE_SKIN_SIZE || n == DOUBLE_SKIN_SIZE || n == SKIN_128_64_SIZE || n == SKIN_128_128_SIZE
  }

  /** `of(image)`: the dimensions follow from the length; an unknown length is "Invalid legacy skin". */
  function Of(image: seq<bv8>): (r: Result<ImageData, string>)
    ensures r.Success? <==> |image| == 0 || IsLegacySkinSize(|image|)
    ensures r.Failure? ==> r.error == "Invalid legacy skin"
    ensures r.Success? ==> r.value.image == image && r.value.width * r.value.height * PIXEL_SIZE == |image|
  {
    if |image| == 0 then Success(EMPTY)
    else if |image| == SINGLE_SKIN_SIZE then Success(ImageData(64, 32, image))
    else if |image| == DOUBLE_SKIN_SIZE then Success(ImageData(64, 64, image))
    else if |image| == SKIN_128_64_SIZE then Success(ImageData(128, 64, image))
    else if |image| == SKIN_128_128_SIZE then Success(ImageData(128, 128, image))
    else Failure("Invalid legacy skin")
  }

  /** `checkLegacyCapeSize()`: no bytes, or a 64 by 32 image; else "Invalid legacy cape". */
  function CheckLegacyCapeSize(d: ImageData): (r: Result<(), string>)
    ensures r.Success? <==> Of(d.image).Success? && Of(d.image).value.width * Of(d.image).value.height <= 64 * 32
    ensures r.Failure? ==> r.error == "Invalid legacy cape"
  {
    if |d.image| == 0 || |d.image| == SINGLE_SKIN_SIZE then Success(()) else Failure("Invalid legacy cape")
  }

  /** `checkLegacySkinSize()`: one of the four legacy sizes; else "Invalid legacy skin". */
  function CheckLegacySkinSize(d: ImageData): (r: Result<(), string>)
    ensures r.Success? <==> |d.image| > 0 && Of(d.image).Success?
    ensures r.Failure? ==> r.error == "Invalid legacy skin"
  {
    if IsLegacySkinSize(|d.image|) then Success(()) else Failure("Invalid legacy skin")
  }

  /** The empty image is `EMPTY` itself. */
  lemma OfEmpty()
    ensures Of([]) == Success(EMPTY)
  {
  }

  /** Every non-empty image `of` accepts passes the skin check. */
  lemma OfPassesSkinCheck(image: seq<bv8>)
    requires Of(image).Success? && |image| > 0
    ensures CheckLegacySkinSize(Of(image).value).Success?
  {
  }

  /** The cape check accepts exactly the empty and the 64 by 32 images `of` builds. */
  lemma CapeCheckOfIff(image: seq<bv8>)
    requires Of(image).Success?
    ensures CheckLegacyCapeSize(Of(image).value).Success? <==> Of(image).value.width * Of(image).value.height <= 64 * 32
  {
  }

  /** The skin check rejects exactly what it does not list, the empty image among them. */
  lemma SkinCheckRejectsEmpty()
    ensures CheckLegacySkinSize(EMPTY) == Failure("Invalid legacy skin")
  {
  }
}
