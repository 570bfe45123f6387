/** Images as the handlers see them: a size and a colour mode. Pixel numerics
    (resampling filters, blending weights) are not modelled. The library calls
    the handlers make (base64, PNG, `Image.open`, the diffusion pipeline) are
    function values supplied by the caller; each may fail with a message. */
module Imaging {
  import opened Base
  import opened JsonData

  newtype byte = x: int | 0 <= x < 256
  type Bytes = seq<byte>

  datatype Image = Image(width: nat, height: nat, mode: string)

  /** The library calls the codec makes, left opaque. */
  datatype ImageLibrary = ImageLibrary(
    b64decode: string -> Result<Bytes>,   // base64.b64decode
    b64encode: Bytes -> string,           // base64.b64encode(...).decode()
    open: Bytes -> Result<Image>,         // Image.open, including the lazy load
    savePng: Image -> Result<Bytes>)      // image.save(buffer, format='PNG')

  /** The alphabet of section 4 of RFC 4648, with its padding character. */
  predicate IsBase64Char(c: char)
  {
    ('A' <= c <= 'Z') || ('a' <= c <= 'z') || ('0' <= c <= '9') || c == '+' || c == '/' || c == '='
  }

  predicate IsBase64Text(s: string)
  {
    forall k :: 0 <= k < |s| ==> IsBase64Char(s[k])
  }

  /** What the round-trip lemmas rely on from the libraries: the encoder emits
      the base64 alphabet, the decoder inverts it, and a PNG that was written
      reads back as the same size and mode. */
  ghost predicate Lawful(lib: ImageLibrary)
  {
    && (forall b :: IsBase64Text(lib.b64encode(b)))
    && (forall b :: lib.b64decode(lib.b64encode(b)) == Ok(b))
    && (forall img :: lib.savePng(img).Ok? ==> lib.open(lib.savePng(img).value) == Ok(img))
  }

  /** `image.convert('RGB')`: the size is kept, the mode becomes RGB. */
  function ConvertRgb(img: Image): (r: Image)
    ensures r.width == img.width && r.height == img.height && r.mode == "RGB"
  {
    Image(img.width, img.height, "RGB")
  }

  /** `image.resize((width, height), ...)` for the positive constant sizes the
      handlers pass: the mode is kept and the size is exactly the one asked for. */
  function Resize(img: Image, width: nat, height: nat): (r: Image)
    requires width > 0 && height > 0
    ensures r.width == width && r.height == height && r.mode == img.mode
  {
    Image(width, height, img.mode)
  }

  /** `Image.blend(a, b, alpha)`: both images must agree in size and mode. */
  function Blend(a: Image, b: Image): (r: Result<Image>)
    ensures r.Ok? <==> a == b
    ensures r.Ok? ==> r.value == a
  {
    if a.width == b.width && a.height == b.height && a.mode == b.mode then Ok(a)
    else Err("images do not match")
  }

  /** The diffusion pipeline: prompt, person image and garment image to one image. */
  type Pipeline = (Json, Image, Image) -> Result<Image>
}
