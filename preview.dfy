/**
 * The non-destructive preview: a fixed pipeline recomputed from the base
 * image and the current adjustments on every call. Stages in order:
 * optional grayscale, brightness/contrast, optional Gaussian blur,
 * optional resize.
 */
module Preview {
  import opened Images
  import opened Primitives
  import opened Settings

  /** Integer quotient truncated toward zero, as a float-to-int conversion of `a / d` does. */
  function TruncDiv(a: int, d: nat): (q: int)
    requires d > 0
    ensures 0 <= a ==> 0 <= q && q * d <= a < q * d + d
    ensures a < 0 ==> q <= 0 && q * d - d < a <= q * d
  {
    if a >= 0 then a / d else -((-a) / d)
  }

  /**
   * One output dimension of a resize to `scale` percent of `n`: the
   * truncated product, but never below 1.
   */
  function ScaledDim(n: nat, scale: int): (r: nat)
    ensures r >= 1
    ensures n * scale >= 100 ==> r * 100 <= n * scale < r * 100 + 100
    ensures n * scale < 100 ==> r == 1
  {
    var t := TruncDiv(n * scale, 100);
    if t < 1 then 1 else t
  }

  /** The Gaussian kernel side for a blur amount: always odd, with radius `blur`. */
  function KernelSize(blur: nat): (k: nat)
    ensures k % 2 == 1 && k / 2 == blur
  {
    blur * 2 + 1
  }

  function GrayStage(img: Image, grayscale: bool, lib: Library): (r: Image)
    ensures SameShape(r, img)
    ensures !grayscale ==> r == img
    ensures grayscale ==> forall y, x :: 0 <= y < r.height && 0 <= x < r.width ==> IsGray(r.rows[y][x])
  {
    if grayscale then GrayToRgb(ToGray(img, lib.luma)) else img
  }

  function BlurStage(img: Image, blur: int, lib: Library): (r: Image)
    ensures blur <= 0 ==> r == img
    ensures Sound(lib) ==> SameShape(r, img)
  {
    if blur > 0 then lib.gaussian(img, KernelSize(blur)) else img
  }

  function ResizeStage(img: Image, scale: int, lib: Library): (r: Image)
    ensures scale == 100 ==> r == img
    ensures Sound(lib) && scale != 100 ==>
      r.width == ScaledDim(img.width, scale) && r.height == ScaledDim(img.height, scale)
  {
    if scale != 100 then lib.resizeArea(img, ScaledDim(img.width, scale), ScaledDim(img.height, scale))
    else img
  }

  /**
   * The preview of `base` under the adjustments `a`, as the program computes
   * it (brightness/contrast through the library's scale-absolute conversion).
   * Its size is the base's at scale 100, otherwise each side truncated to
   * `scale` percent and clamped to at least 1.
   */
  function Render(base: Image, a: Adjustments, lib: Library): (r: Image)
    ensures Sound(lib) && a.scale == 100 ==> SameShape(r, base)
    ensures Sound(lib) && a.scale != 100 ==>
      r.width == ScaledDim(base.width, a.scale) && r.height == ScaledDim(base.height, a.scale)
  {
    ResizeStage(BlurStage(ScaleAbs(GrayStage(base, a.grayscale, lib), a.contrast, a.brightness), a.blur, lib), a.scale, lib)
  }

  /** The preview as intended, with the clamped brightness/contrast adjustment. */
  function IntendedRender(base: Image, a: Adjustments, lib: Library): Image {
    ResizeStage(BlurStage(Tone(GrayStage(base, a.grayscale, lib), a.contrast, a.brightness), a.blur, lib), a.scale, lib)
  }

  /** With non-negative brightness and contrast the program's preview is the intended one. */
  lemma {:induction false} RenderMatchesIntended(base: Image, a: Adjustments, lib: Library)
    requires a.brightness >= 0 && a.contrast >= 0.0
    ensures Render(base, a, lib) == IntendedRender(base, a, lib)
  {
    ScaleAbsImageAgreesWithTone(GrayStage(base, a.grayscale, lib), a.contrast, a.brightness);
  }

  /** Under the neutral settings the preview is pixel-identical to the base. */
  lemma {:induction false} RenderDefaultsIdentity(base: Image, lib: Library)
    ensures Render(base, Defaults, lib) == base
  {
    RenderMatchesIntended(base, Defaults, lib);
    ToneIdentity(base);
  }

  /** At 10 percent a 100 x 100 base previews as 10 x 10, at 200 percent as 200 x 200. */
  lemma RenderSizeExamples(base: Image, a: Adjustments, lib: Library)
    requires Sound(lib) && base.width == 100 && base.height == 100
    ensures a.scale == 10 ==> Render(base, a, lib).width == 10 && Render(base, a, lib).height == 10
    ensures a.scale == 200 ==> Render(base, a, lib).width == 200 && Render(base, a, lib).height == 200
  {
  }
}
