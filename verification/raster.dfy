/** Pixel coordinates, grayscale images and the density model of the stippling engine. */
module Raster {

  /** An integer pixel coordinate: `x` is the column, `y` the row. */
  datatype Point = Point(x: int, y: int)

  /** A grayscale image of `width` columns and `height` rows;
      `pixels[y][x]` is the 8-bit brightness of column `x` of row `y`. */
  datatype Image = Image(width: nat, height: nat, pixels: seq<seq<int>>)

  /** The result of a step that the program either completes or aborts with
      Python's `IndexError` (the only failure this core can raise). */
  datatype Outcome<T> = Done(value: T) | IndexError

  /** The rows and columns agree with the declared size and every brightness is a byte. */
  predicate WellFormed(img: Image) {
    && |img.pixels| == img.height
    && (forall y :: 0 <= y < img.height ==> |img.pixels[y]| == img.width)
    && (forall y, x :: 0 <= y < img.height && 0 <= x < img.width ==> 0 <= img.pixels[y][x] <= 255)
  }

  /** `p` lies inside a `w` by `h` grid. */
  predicate InBounds(p: Point, w: int, h: int) {
    0 <= p.x < w && 0 <= p.y < h
  }

  /** The density of pixel (x, y): one minus its brightness as a fraction of 255,
      so black pixels weigh 1 and white pixels weigh 0. */
  function Density(img: Image, x: int, y: int): (d: real)
    requires WellFormed(img) && InBounds(Point(x, y), img.width, img.height)
    ensures 0.0 <= d <= 1.0
    ensures img.pixels[y][x] as real == 255.0 * (1.0 - d)
  {
    1.0 - img.pixels[y][x] as real / 255.0
  }

  /** Darker pixels are strictly denser. */
  lemma DarkerIsDenser(img: Image, x1: int, y1: int, x2: int, y2: int)
    requires WellFormed(img)
    requires InBounds(Point(x1, y1), img.width, img.height)
    requires InBounds(Point(x2, y2), img.width, img.height)
    ensures img.pixels[y1][x1] < img.pixels[y2][x2] <==> Density(img, x1, y1) > Density(img, x2, y2)
  {
  }
}
