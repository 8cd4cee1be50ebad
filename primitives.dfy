/**
 * Pixel-level operations used by the editor. The ones whose numerics live
 * inside the image library (luminance weights, Gaussian smoothing,
 * area-averaging resampling and Canny edge detection) are supplied as the
 * function-valued fields of a `Library`; the model relies only on the
 * shape guarantees stated by `Sound`. The brightness/contrast mapping is
 * integer-and-rational arithmetic and is written out per channel.
 */
module Primitives {
  import opened Images

  /** The image-library operations the editor calls but that are not modelled. */
  datatype Library = Library(
    luma: Pixel -> byte,                  // colour to luminance conversion, one pixel
    gaussian: (Image, nat) -> Image,      // Gaussian blur with a k x k kernel, sigma from k
    resizeArea: (Image, nat, nat) -> Image, // resampling to a given width and height
    canny: (Plane, nat, nat) -> Plane)    // edge map from a low and a high threshold

  /** The shape guarantees the editor relies on. */
  ghost predicate Sound(lib: Library) {
    (forall img: Image, k: nat :: SameShape(lib.gaussian(img, k), img)) &&
    (forall img: Image, w: nat, h: nat :: 1 <= w && 1 <= h ==>
      lib.resizeArea(img, w, h).width == w && lib.resizeArea(img, w, h).height == h) &&
    (forall p: Plane, lo: nat, hi: nat :: SameShape(lib.canny(p, lo, hi), p))
  }

  /** Single-channel luminance of every pixel. */
  function ToGray(img: Image, luma: Pixel -> byte): (p: Plane)
    ensures SameShape(p, img)
    ensures forall y, x :: 0 <= y < p.height && 0 <= x < p.width ==> p.rows[y][x] == luma(img.rows[y][x])
  {
    Grid(img.width, img.height,
      seq(img.height, y requires 0 <= y < img.height =>
        seq(img.width, x requires 0 <= x < img.width => luma(img.rows[y][x]))))
  }

  /** A plane expanded back to three identical channels. */
  function GrayToRgb(p: Plane): (img: Image)
    ensures SameShape(img, p)
    ensures forall y, x :: 0 <= y < img.height && 0 <= x < img.width ==>
      img.rows[y][x] == Pixel(p.rows[y][x], p.rows[y][x], p.rows[y][x])
  {
    Grid(p.width, p.height,
      seq(p.height, y requires 0 <= y < p.height =>
        seq(p.width, x requires 0 <= x < p.width => Pixel(p.rows[y][x], p.rows[y][x], p.rows[y][x]))))
  }

  predicate IsGray(px: Pixel) {
    px.r == px.g == px.b
  }

  /** The edge thresholds of the destructive edge-detection edit. */
  const CannyLow: nat := 100
  const CannyHigh: nat := 200

  /** The edge-detection edit: luminance, Canny with thresholds 100 and 200, back to three channels. */
  function EdgeMap(img: Image, lib: Library): (r: Image)
    ensures Sound(lib) ==> SameShape(r, img)
    ensures forall y, x :: 0 <= y < r.height && 0 <= x < r.width ==> IsGray(r.rows[y][x])
  {
    GrayToRgb(lib.canny(ToGray(img, lib.luma), CannyLow, CannyHigh))
  }

  /** Round to the nearest integer, ties to the even neighbour. */
  function RoundHalfEven(v: real): (n: int)
    ensures n as real - v <= 0.5 && v - n as real <= 0.5
    ensures (n as real - v == 0.5 || v - n as real == 0.5) ==> n % 2 == 0
  {
    var f := v.Floor;
    var d := v - f as real;
    if d < 0.5 then f
    else if d > 0.5 then f + 1
    else if f % 2 == 0 then f
    else f + 1
  }

  /** Rounding never reverses the order of two values. */
  lemma RoundMonotone(u: real, v: real)
    requires u <= v
    ensures RoundHalfEven(u) <= RoundHalfEven(v)
  {
  }

  /** Rounding is symmetric about zero: ties to even treat v and -v alike. */
  lemma RoundNegate(v: real)
    ensures RoundHalfEven(-v) == -RoundHalfEven(v)
  {
  }

  /** Clamp to the channel range. */
  function Saturate(v: int): (b: byte)
    ensures 0 <= v <= 255 ==> b == v
    ensures v < 0 ==> b == 0
    ensures v > 255 ==> b == 255
  {
    if v < 0 then 0 else if v > 255 then 255 else v
  }

  /** Saturation preserves order and leaves channel values alone. */
  lemma SaturateLaws(u: int, v: int)
    requires u <= v
    ensures Saturate(u) <= Saturate(v)
    ensures Saturate(Saturate(u)) == Saturate(u)
  {
  }

  /** A product of two non-negative reals is non-negative. */
  lemma MulNonNeg(a: real, b: real)
    requires a >= 0.0 && b >= 0.0
    ensures a * b >= 0.0
  {
  }

  /** Rounding followed by saturation never reverses the order of two values. */
  lemma ClampMonotone(u: real, v: real)
    requires u <= v
    ensures Saturate(RoundHalfEven(u)) <= Saturate(RoundHalfEven(v))
  {
    RoundMonotone(u, v);
    SaturateLaws(RoundHalfEven(u), RoundHalfEven(v));
  }

  function Abs(v: real): (a: real)
    ensures a >= 0.0 && (a == v || a == -v)
  {
    if v < 0.0 then -v else v
  }

  /**
   * One channel of the library's scale-absolute conversion with gain
   * `alpha` and offset `beta`, as the editor calls it: the absolute value of
   * the affine map, rounded and saturated to a byte.
   */
  function ScaleAbsChannel(alpha: real, beta: int, x: byte): (c: byte)
    ensures RoundHalfEven(alpha * x as real + beta as real) >= 0 ==>
      c == Saturate(RoundHalfEven(alpha * x as real + beta as real))
    ensures RoundHalfEven(alpha * x as real + beta as real) < 0 ==>
      c == Saturate(-RoundHalfEven(alpha * x as real + beta as real))
  {
    RoundNegate(alpha * x as real + beta as real);
    Saturate(RoundHalfEven(Abs(alpha * x as real + beta as real)))
  }

  /**
   * A darkening offset lights up dark pixels again: with gain 1 and offset
   * -100, channel 30 becomes 70 while channel 100 becomes 0, so the
   * as-written mapping is not monotone.
   */
  lemma ScaleAbsNotMonotone()
    ensures ScaleAbsChannel(1.0, -100, 30) == 70
    ensures ScaleAbsChannel(1.0, -100, 100) == 0
    ensures ScaleAbsChannel(1.0, -100, 30) > ScaleAbsChannel(1.0, -100, 100)
  {
  }

  /**
   * One channel of the brightness/contrast adjustment as intended: the
   * affine map `alpha * x + beta`, rounded and clamped to [0, 255].
   */
  function ToneChannel(alpha: real, beta: int, x: byte): (c: byte)
    ensures alpha * x as real + beta as real <= 0.0 ==> c == 0
    ensures alpha * x as real + beta as real >= 255.0 ==> c == 255
    ensures 0.0 <= alpha * x as real + beta as real <= 255.0 ==>
      c == RoundHalfEven(alpha * x as real + beta as real)
  {
    Saturate(RoundHalfEven(alpha * x as real + beta as real))
  }

  /** Offset 50 at unit gain lifts channel 200 to 250, in the intended and in the as-written map. */
  lemma ToneExample()
    ensures ToneChannel(1.0, 50, 200) == 250
    ensures ScaleAbsChannel(1.0, 50, 200) == 250
  {
  }

  /** Where the affine value cannot be negative the as-written and the intended maps agree. */
  lemma ScaleAbsAgreesWithTone(alpha: real, beta: int, x: byte)
    requires alpha >= 0.0 && beta >= 0
    ensures ScaleAbsChannel(alpha, beta, x) == ToneChannel(alpha, beta, x)
  {
    MulNonNeg(alpha, x as real);
  }

  /** With a non-negative gain the intended adjustment never reverses the order of two channel values. */
  lemma ToneMonotone(alpha: real, beta: int, x: byte, y: byte)
    requires alpha >= 0.0 && x <= y
    ensures ToneChannel(alpha, beta, x) <= ToneChannel(alpha, beta, y)
  {
    var u, v := alpha * x as real + beta as real, alpha * y as real + beta as real;
    MulNonNeg(alpha, y as real - x as real);
    assert alpha * y as real - alpha * x as real == alpha * (y as real - x as real);
    ClampMonotone(u, v);
  }

  /** Gain 1 and offset 0 leave a channel unchanged. */
  lemma ToneNeutral(x: byte)
    ensures ToneChannel(1.0, 0, x) == x
  {
  }

  /** The brightness/contrast adjustment applied to every channel of every pixel. */
  function Tone(img: Image, alpha: real, beta: int): (r: Image)
    ensures SameShape(r, img)
    ensures forall y, x :: 0 <= y < r.height && 0 <= x < r.width ==>
      r.rows[y][x] == TonePixel(alpha, beta, img.rows[y][x])
  {
    Grid(img.width, img.height,
      seq(img.height, y requires 0 <= y < img.height =>
        seq(img.width, x requires 0 <= x < img.width => TonePixel(alpha, beta, img.rows[y][x]))))
  }

  function TonePixel(alpha: real, beta: int, px: Pixel): Pixel {
    Pixel(ToneChannel(alpha, beta, px.r), ToneChannel(alpha, beta, px.g), ToneChannel(alpha, beta, px.b))
  }

  /** Gain 1 and offset 0 leave the image pixel-identical. */
  lemma {:induction false} ToneIdentity(img: Image)
    ensures Tone(img, 1.0, 0) == img
  {
    var r := Tone(img, 1.0, 0);
    forall y, x | 0 <= y < img.height && 0 <= x < img.width
      ensures r.rows[y][x] == img.rows[y][x]
    {
      var px := img.rows[y][x];
      ToneNeutral(px.r);
      ToneNeutral(px.g);
      ToneNeutral(px.b);
    }
    ImageExt(r, img);
  }

  /** The library's scale-absolute conversion applied to every channel of every pixel, as the editor calls it. */
  function ScaleAbs(img: Image, alpha: real, beta: int): (r: Image)
    ensures SameShape(r, img)
    ensures forall y, x :: 0 <= y < r.height && 0 <= x < r.width ==>
      r.rows[y][x] == ScaleAbsPixel(alpha, beta, img.rows[y][x])
  {
    Grid(img.width, img.height,
      seq(img.height, y requires 0 <= y < img.height =>
        seq(img.width, x requires 0 <= x < img.width => ScaleAbsPixel(alpha, beta, img.rows[y][x]))))
  }

  function ScaleAbsPixel(alpha: real, beta: int, px: Pixel): Pixel {
    Pixel(ScaleAbsChannel(alpha, beta, px.r), ScaleAbsChannel(alpha, beta, px.g), ScaleAbsChannel(alpha, beta, px.b))
  }

  /** With non-negative gain and offset the as-written conversion is the intended adjustment, image-wide. */
  lemma {:induction false} ScaleAbsImageAgreesWithTone(img: Image, alpha: real, beta: int)
    requires alpha >= 0.0 && beta >= 0
    ensures ScaleAbs(img, alpha, beta) == Tone(img, alpha, beta)
  {
    var r, t := ScaleAbs(img, alpha, beta), Tone(img, alpha, beta);
    forall y, x | 0 <= y < img.height && 0 <= x < img.width
      ensures r.rows[y][x] == t.rows[y][x]
    {
      var px := img.rows[y][x];
      ScaleAbsAgreesWithTone(alpha, beta, px.r);
      ScaleAbsAgreesWithTone(alpha, beta, px.g);
      ScaleAbsAgreesWithTone(alpha, beta, px.b);
    }
    ImageExt(r, t);
  }
}
