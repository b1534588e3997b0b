/** Window rectangles and the arithmetic that turns one into a crop box inside a captured
    image. The same arithmetic is written twice in the source: once with `if` clamps
    (snapshot pipeline) and once with `max`/`min` (manual capture). The source computes
    in `i32`; the model wraps around as a release build does. */
module Crop {

  const I32Min: int := -0x8000_0000
  const I32Max: int := 0x7FFF_FFFF

  predicate IsI32(x: int) {
    I32Min <= x <= I32Max
  }

  /** Two's-complement wrap-around into the `i32` range. */
  function Wrap32(x: int): (r: int)
    ensures IsI32(r)
    ensures IsI32(x) ==> r == x
  {
    (x - I32Min) % 0x1_0000_0000 + I32Min
  }

  /** A window rectangle in virtual-screen coordinates: left, top, right, bottom. */
  datatype Rect = Rect(left: int, top: int, right: int, bottom: int)

  /** The arguments handed to `crop_imm`: x, y, width, height in image pixels. */
  datatype CropBox = CropBox(x: int, y: int, width: int, height: int)

  function Max(a: int, b: int): int {
    if a >= b then a else b
  }

  function Min(a: int, b: int): int {
    if a <= b then a else b
  }

  /** No `i32` operation of the arithmetic overflows: the translation by the origin, the
      casts of the image size, and the edge differences. */
  predicate NoOverflow(rect: Rect, originX: int, originY: int, imgW: nat, imgH: nat) {
    && imgW <= I32Max && imgH <= I32Max
    && IsI32(rect.left - originX) && IsI32(rect.top - originY)
    && IsI32(rect.right - originX) && IsI32(rect.bottom - originY)
    && IsI32(Min(rect.right - originX, imgW) - Max(rect.left - originX, 0))
    && IsI32(Min(rect.bottom - originY, imgH) - Max(rect.top - originY, 0))
  }

  /** The translated rectangle lies within the image and has positive width and height. */
  predicate InsideImage(rect: Rect, originX: int, originY: int, imgW: nat, imgH: nat) {
    && 0 <= rect.left - originX < rect.right - originX <= imgW
    && 0 <= rect.top - originY < rect.bottom - originY <= imgH
  }

  /** `crop_cached_to_window`'s arithmetic: translate by the origin, clamp with `if`s,
      force at least one pixel each way. */
  function CropCached(rect: Rect, originX: int, originY: int, imgW: nat, imgH: nat): (b: CropBox)
    ensures b.x >= 0 && b.y >= 0 && b.width >= 1 && b.height >= 1
    ensures NoOverflow(rect, originX, originY, imgW, imgH) ==>
              && (b.x < imgW ==> b.x + b.width <= imgW)
              && (b.y < imgH ==> b.y + b.height <= imgH)
    ensures NoOverflow(rect, originX, originY, imgW, imgH) && InsideImage(rect, originX, originY, imgW, imgH) ==>
              b == CropBox(rect.left - originX, rect.top - originY,
                           rect.right - rect.left, rect.bottom - rect.top)
  {
    var left := Wrap32(rect.left - originX);
    var top := Wrap32(rect.top - originY);
    var right := Wrap32(rect.right - originX);
    var bottom := Wrap32(rect.bottom - originY);
    var left' := if left < 0 then 0 else left;
    var top' := if top < 0 then 0 else top;
    var right' := if right > Wrap32(imgW) then Wrap32(imgW) else right;
    var bottom' := if bottom > Wrap32(imgH) then Wrap32(imgH) else bottom;
    CropBox(left', top', Max(Wrap32(right' - left'), 1), Max(Wrap32(bottom' - top'), 1))
  }

  /** The manual-capture arithmetic, written with `max`/`min`. */
  function CropLive(rect: Rect, originX: int, originY: int, imgW: nat, imgH: nat): (b: CropBox)
    ensures b.x >= 0 && b.y >= 0 && b.width >= 1 && b.height >= 1
  {
    var left := Max(Wrap32(rect.left - originX), 0);
    var top := Max(Wrap32(rect.top - originY), 0);
    var right := Min(Wrap32(rect.right - originX), Wrap32(imgW));
    var bottom := Min(Wrap32(rect.bottom - originY), Wrap32(imgH));
    CropBox(left, top, Max(Wrap32(right - left), 1), Max(Wrap32(bottom - top), 1))
  }

  /** Both copies of the arithmetic compute the same crop box, for every input. */
  lemma CropCopiesAgree(rect: Rect, originX: int, originY: int, imgW: nat, imgH: nat)
    ensures CropCached(rect, originX, originY, imgW, imgH) == CropLive(rect, originX, originY, imgW, imgH)
  {
  }

  /** A window entirely to the right of the image gives a box that starts past the
      image's right edge: the clamps bound the right edge but not the left one. */
  lemma OffscreenWindowBoxStartsOutside()
    ensures var b := CropCached(Rect(3000, 100, 3500, 400), 0, 0, 1920, 1080);
            b == CropBox(3000, 100, 1, 300) && b.x >= 1920
  {
  }
}
