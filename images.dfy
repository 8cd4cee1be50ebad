/**
 * Raster images as immutable values: a rectangular, row-major grid of
 * RGB pixels with 8-bit channels, plus the two lossless geometric edits
 * the editor offers (a clockwise quarter turn and an axis flip).
 *
 * Because images are values, the snapshots the editor keeps for undo and
 * redo are independent of one another by construction.
 */
module Images {

  /** An 8-bit channel value. */
  type byte = x: int | 0 <= x < 256

  datatype Pixel = Pixel(r: byte, g: byte, b: byte)

  /** A grid of cells, `rows[y][x]` being the cell in column x of row y. */
  datatype Grid<T> = Grid(width: nat, height: nat, rows: seq<seq<T>>)

  predicate Rectangular<T>(g: Grid<T>) {
    |g.rows| == g.height && forall y :: 0 <= y < |g.rows| ==> |g.rows[y]| == g.width
  }

  /** A three-channel image. */
  type Image = g: Grid<Pixel> | Rectangular(g) witness Grid(0, 0, [])

  /** A single-channel (luminance) image. */
  type Plane = g: Grid<byte> | Rectangular(g) witness Grid(0, 0, [])

  predicate SameShape<T, U>(a: Grid<T>, b: Grid<U>) {
    a.width == b.width && a.height == b.height
  }

  /** Two images with the same shape and the same pixel everywhere are equal. */
  lemma {:induction false} ImageExt(a: Image, b: Image)
    requires SameShape(a, b)
    requires forall y, x :: 0 <= y < a.height && 0 <= x < a.width ==> a.rows[y][x] == b.rows[y][x]
    ensures a == b
  {
    forall y | 0 <= y < a.height
      ensures a.rows[y] == b.rows[y]
    {
      assert forall x :: 0 <= x < a.width ==> a.rows[y][x] == b.rows[y][x];
    }
  }

  /**
   * Quarter turn clockwise: the result is as wide as the input is high and
   * as high as the input is wide; its top-left pixel is the input's
   * bottom-left one.
   */
  function Rotate90(img: Image): (r: Image)
    ensures r.width == img.height && r.height == img.width
    ensures forall y, x :: 0 <= y < r.height && 0 <= x < r.width ==>
      r.rows[y][x] == img.rows[img.height - 1 - x][y]
  {
    Grid(img.height, img.width,
      seq(img.width, y requires 0 <= y < img.width =>
        seq(img.height, x requires 0 <= x < img.height => img.rows[img.height - 1 - x][y])))
  }

  /** Two quarter turns turn the image upside down and mirror it. */
  lemma Rotate180At(img: Image, y: nat, x: nat)
    requires y < img.height && x < img.width
    ensures SameShape(Rotate90(Rotate90(img)), img)
    ensures Rotate90(Rotate90(img)).rows[y][x] == img.rows[img.height - 1 - y][img.width - 1 - x]
  {
  }

  /** Four quarter turns give back the original image, pixel for pixel. */
  lemma {:induction false} RotateFourTimes(img: Image)
    ensures Rotate90(Rotate90(Rotate90(Rotate90(img)))) == img
  {
    var half := Rotate90(Rotate90(img));
    var full := Rotate90(Rotate90(half));
    forall y, x | 0 <= y < img.height && 0 <= x < img.width
      ensures full.rows[y][x] == img.rows[y][x]
    {
      Rotate180At(img, y, x);
      Rotate180At(half, y, x);
    }
    ImageExt(full, img);
  }

  /** The row of the input that row y of flip mode `mode` reads. */
  function FlipRow(img: Image, mode: int, y: nat): (r: nat)
    requires y < img.height
    ensures r < img.height
    ensures mode <= 0 ==> r + y + 1 == img.height
    ensures mode > 0 ==> r == y
  {
    if mode <= 0 then img.height - 1 - y else y
  }

  /** The column of the input that column x of flip mode `mode` reads. */
  function FlipColumn(img: Image, mode: int, x: nat): (c: nat)
    requires x < img.width
    ensures c < img.width
    ensures mode != 0 ==> c + x + 1 == img.width
    ensures mode == 0 ==> c == x
  {
    if mode != 0 then img.width - 1 - x else x
  }

  /** Each flip index map is its own inverse, so every flip pairs pixels up. */
  lemma FlipIndexInvolution(img: Image, mode: int, y: nat, x: nat)
    requires y < img.height && x < img.width
    ensures FlipRow(img, mode, FlipRow(img, mode, y)) == y
    ensures FlipColumn(img, mode, FlipColumn(img, mode, x)) == x
  {
  }

  /**
   * Mirror the image. Mode 0 mirrors top to bottom (vertical flip), a
   * positive mode mirrors left to right (horizontal flip) and a negative
   * mode does both. The shape is kept.
   */
  function Flip(img: Image, mode: int): (r: Image)
    ensures SameShape(r, img)
    ensures forall y, x :: 0 <= y < r.height && 0 <= x < r.width ==>
      r.rows[y][x] == img.rows[FlipRow(img, mode, y)][FlipColumn(img, mode, x)]
  {
    var rows := seq(img.height, y requires 0 <= y < img.height =>
      seq(img.width, x requires 0 <= x < img.width =>
        img.rows[FlipRow(img, mode, y)][FlipColumn(img, mode, x)]));
    assert forall y :: 0 <= y < |rows| ==> |rows[y]| == img.width;
    Grid(img.width, img.height, rows)
  }

  /** Flipping twice with the same mode gives back the original image. */
  lemma {:induction false} FlipInvolution(img: Image, mode: int)
    ensures Flip(Flip(img, mode), mode) == img
  {
    var once := Flip(img, mode);
    var twice := Flip(once, mode);
    forall y, x | 0 <= y < img.height && 0 <= x < img.width
      ensures twice.rows[y][x] == img.rows[y][x]
    {
      var y1, x1 := FlipRow(img, mode, y), FlipColumn(img, mode, x);
      FlipIndexInvolution(img, mode, y, x);
      calc {
        twice.rows[y][x];
        once.rows[y1][x1];
        img.rows[y][x];
      }
    }
    ImageExt(twice, img);
  }

  /** Every pixel of the image is `p`. */
  predicate Uniform(img: Image, p: Pixel) {
    forall y, x :: 0 <= y < img.height && 0 <= x < img.width ==> img.rows[y][x] == p
  }

  /** Flipping an image of one colour changes nothing. */
  lemma {:induction false} FlipUniform(img: Image, p: Pixel, mode: int)
    requires Uniform(img, p)
    ensures Flip(img, mode) == img
  {
    var r := Flip(img, mode);
    forall y, x | 0 <= y < img.height && 0 <= x < img.width
      ensures r.rows[y][x] == img.rows[y][x]
    {
      assert r.rows[y][x] == img.rows[FlipRow(img, mode, y)][FlipColumn(img, mode, x)];
    }
    ImageExt(r, img);
  }

  /** An image of the given size filled with one colour. */
  function Filled(width: nat, height: nat, p: Pixel): (r: Image)
    ensures r.width == width && r.height == height && Uniform(r, p)
  {
    Grid(width, height, seq(height, _ => seq(width, _ => p)))
  }
}
