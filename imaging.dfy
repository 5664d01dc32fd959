/**
 * The part of Pillow the HEIC conversion uses, as terms: an image is the sequence of
 * operations that produced it. `ModeOf` and `SizeOf` give the mode and size Pillow gives
 * the result of each operation; pixel values and codecs are not modelled.
 */
module Imaging {

  import opened Wrappers
  import opened Files

  /** The name of a mode the conversion does not single out ("L", "CMYK", ...). */
  type OtherModeName = name: string | name !in {"RGB", "RGBA", "LA", "P"} witness "L"

  /** The colour modes the conversion distinguishes; every other mode is `OtherMode`. */
  datatype Mode = RGB | RGBA | LA | P | OtherMode(name: OtherModeName)

  datatype Size = Size(width: nat, height: nat)

  datatype Colour = Colour(red: nat, green: nat, blue: nat)

  const White: Colour := Colour(255, 255, 255)

  datatype Image =
    | Opened(mode: Mode, size: Size, source: seq<byte>)     // Image.open on these bytes
    | Converted(original: Image, target: Mode)              // original.convert(target)
    | Canvas(canvasMode: Mode, canvasSize: Size, fill: Colour) // Image.new(mode, size, fill)
    | Pasted(base: Image, layer: Image, mask: Option<Image>)   // base after base.paste(layer, mask=mask)
    | Band(whole: Image, index: nat)                        // whole.split()[index]

  /** `img.mode`: pasting keeps the mode of the image pasted onto; a single band is "L". */
  function ModeOf(img: Image): Mode {
    match img
    case Opened(m, _, _) => m
    case Converted(_, m) => m
    case Canvas(m, _, _) => m
    case Pasted(base, _, _) => ModeOf(base)
    case Band(_, _) => OtherMode("L")
  }

  /** `img.size`: every operation here keeps the size of the image it starts from. */
  function SizeOf(img: Image): Size {
    match img
    case Opened(_, s, _) => s
    case Converted(original, _) => SizeOf(original)
    case Canvas(_, s, _) => s
    case Pasted(base, _, _) => SizeOf(base)
    case Band(whole, _) => SizeOf(whole)
  }

  /** The keyword arguments of `img.save(output, format="JPEG", quality=95, optimize=True)`. */
  datatype JpegOptions = JpegOptions(quality: nat, optimize: bool)

  const HeicJpegOptions: JpegOptions := JpegOptions(95, true)
}
