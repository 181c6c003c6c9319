/**
 * Images as the executor sees them: a width, a height and a grid of RGBA pixels, plus the
 * image library's operations. Pixel filters and resampling are that library's code; they are
 * passed in as a `Library` record and constrained only by the geometry the executor relies on.
 */
module Raster {
  import opened Common

  datatype Pixel = Rgba(r: u8, g: u8, b: u8, a: u8)

  /** The pixel a freshly allocated RGBA canvas is filled with. */
  const Transparent: Pixel := Rgba(0, 0, 0, 0)

  /** Rows top to bottom, each row left to right. */
  datatype Raster = Raster(width: u32, height: u32, rows: seq<seq<Pixel>>) {
    predicate Valid() {
      |rows| == height && forall y | 0 <= y < |rows| :: |rows[y]| == width
    }
  }

  /** An image whose pixel grid matches its dimensions. */
  type Image = r: Raster | r.Valid() witness Raster(0, 0, [])

  /** The pixel in column `x`, row `y`. */
  function At(img: Image, x: nat, y: nat): (r: Pixel)
    requires x < img.width && y < img.height
  {
    img.rows[y][x]
  }

  /** `DynamicImage::new_rgba8`: a fully transparent canvas. */
  function Blank(width: u32, height: u32): (r: Image)
    ensures r.width == width && r.height == height
    ensures forall x, y | 0 <= x < width && 0 <= y < height :: At(r, x, y) == Transparent
  {
    Raster(width, height, seq(height, _ => seq(width, _ => Transparent)))
  }

  /** Whether `src` placed with its top-left corner at (x, y) lies inside `dst`. */
  predicate Fits(dst: Image, src: Image, x: u32, y: u32) {
    src.width + x <= dst.width && src.height + y <= dst.height
  }

  /** Whether (i, j) lies in the `w` by `h` rectangle whose top-left corner is (x, y). */
  predicate InRect(i: int, j: int, x: int, y: int, w: int, h: int) {
    x <= i < x + w && y <= j < y + h
  }

  /**
   * `GenericImage::copy_from` of the image crate this program builds against: when `src`
   * fits at (x, y) its pixels overwrite that rectangle of `dst`; otherwise nothing is copied
   * (the crate then returns `false`, which the program ignores).
   */
  function CopyFrom(dst: Image, src: Image, x: u32, y: u32): (r: Image)
    ensures r.width == dst.width && r.height == dst.height
    ensures !Fits(dst, src, x, y) ==> r == dst
    ensures Fits(dst, src, x, y) ==>
      forall i, j | 0 <= i < dst.width && 0 <= j < dst.height ::
        At(r, i, j) == if InRect(i, j, x, y, src.width, src.height) then At(src, i - x, j - y)
                       else At(dst, i, j)
  {
    if !Fits(dst, src, x, y) then dst
    else
      Raster(dst.width, dst.height,
        seq(dst.height, j requires 0 <= j < dst.height =>
          seq(dst.width, i requires 0 <= i < dst.width =>
            if InRect(i, j, x, y, src.width, src.height) then src.rows[j - y][i - x]
            else dst.rows[j][i])))
  }

  /** `image::FilterType`: the two resampling filters the program selects between. */
  datatype FilterType = Nearest | Lanczos3

  /** The image library's operations on `DynamicImage` that the executor calls. */
  datatype Library = Library(
    invert: Image -> Image,
    adjustContrast: (Image, F32) -> Image,
    brighten: (Image, i32) -> Image,
    blur: (Image, F32) -> Image,
    unsharpen: (Image, F32, i32) -> Image,
    crop: (Image, u32, u32, u32, u32) -> Image,
    rotate90: Image -> Image,
    rotate180: Image -> Image,
    rotate270: Image -> Image,
    flipv: Image -> Image,
    fliph: Image -> Image,
    resize: (Image, u32, u32, FilterType) -> Image,
    resizeExact: (Image, u32, u32, FilterType) -> Image)

  /** A side of the box `resize` fits into: a zero side of the requested box counts as one pixel. */
  function BoxSide(n: u32): (r: nat) {
    if n == 0 then 1 else n
  }

  predicate SameSize(a: Image, b: Image) {
    a.width == b.width && a.height == b.height
  }

  predicate Transposed(a: Image, b: Image) {
    a.width == b.height && a.height == b.width
  }

  /**
   * What the library promises about image sizes: filters, flips and the half turn keep the
   * size, quarter turns swap width and height, `resize` keeps the aspect ratio and so fits
   * the result inside the requested box (a zero side counting as one pixel), and `resizeExact` produces exactly the requested size.
   * Nothing is promised about `crop`.
   */
  ghost predicate Sound(lib: Library) {
    && (forall img :: SameSize(lib.invert(img), img))
    && (forall img, c :: SameSize(lib.adjustContrast(img, c), img))
    && (forall img, b :: SameSize(lib.brighten(img, b), img))
    && (forall img, s :: SameSize(lib.blur(img, s), img))
    && (forall img, s, t :: SameSize(lib.unsharpen(img, s, t), img))
    && (forall img :: Transposed(lib.rotate90(img), img))
    && (forall img :: SameSize(lib.rotate180(img), img))
    && (forall img :: Transposed(lib.rotate270(img), img))
    && (forall img :: SameSize(lib.flipv(img), img))
    && (forall img :: SameSize(lib.fliph(img), img))
    && (forall img, w, h, f ::
          lib.resize(img, w, h, f).width <= BoxSide(w) && lib.resize(img, w, h, f).height <= BoxSide(h))
    && (forall img, w, h, f ::
          lib.resizeExact(img, w, h, f).width == w && lib.resizeExact(img, w, h, f).height == h)
  }
}
