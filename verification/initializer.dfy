/** The generator initializer: rejection sampling over the 2x2 blocks of the image.
    The block whose top-left pixel is (i, j) yields the generator (i + 1, j + 1) when its
    mean brightness, as a fraction of 255, is below the block's random draw. Blocks are
    visited column by column (x in the outer loop, y in the inner one), one draw each. */
module Initializer {
  import opened Raster

  /** The brightness sum of the 2x2 block whose top-left pixel is (i, j). */
  function BlockSum(img: Image, i: int, j: int): int
    requires WellFormed(img) && 0 <= i && i + 1 < img.width && 0 <= j && j + 1 < img.height
  {
    img.pixels[j][i] + img.pixels[j][i + 1] + img.pixels[j + 1][i] + img.pixels[j + 1][i + 1]
  }

  /** The block at (i, j) is kept for the draw `r`: its mean brightness over 255 is below `r`. */
  predicate Accepts(img: Image, i: int, j: int, r: real)
    requires WellFormed(img) && 0 <= i && i + 1 < img.width && 0 <= j && j + 1 < img.height
  {
    (BlockSum(img, i, j) as real / 4.0) / 255.0 < r
  }

  /** A block's brightness sum lies in [0, 4 * 255], and the test "mean over 255 below r"
      is "sum below 1020 r": every block is kept for a draw above 1, none for a draw of 0
      or less, and a black block for any positive draw. */
  lemma BlockThreshold(img: Image, i: int, j: int, r: real)
    requires WellFormed(img) && 0 <= i && i + 1 < img.width && 0 <= j && j + 1 < img.height
    ensures 0 <= BlockSum(img, i, j) <= 1020
    ensures Accepts(img, i, j, r) <==> (BlockSum(img, i, j) as real) < 1020.0 * r
    ensures r > 1.0 ==> Accepts(img, i, j, r)
    ensures r <= 0.0 ==> !Accepts(img, i, j, r)
    ensures BlockSum(img, i, j) == 0 ==> (Accepts(img, i, j, r) <==> r > 0.0)
  {
  }

  /** The number of block origins s, s + 2, s + 4, ... that lie below n - 1. */
  function Blocks(n: int, s: int): nat
    decreases n - s
  {
    if s + 1 >= n then 0 else 1 + Blocks(n, s + 2)
  }

  lemma {:induction false} BlocksClosedForm(n: nat, s: nat)
    requires s <= n
    ensures Blocks(n, s) == (n - s) / 2
    decreases n - s
  {
    if s + 1 < n {
      BlocksClosedForm(n, s + 2);
    }
  }

  lemma MulSucc(b: int, k: int)
    ensures (b + 1) * k == k + b * k
  {
  }

  /** The number of draws the columns i, i + 2, ... consume, at `k` draws per column. */
  function ColumnDraws(n: int, i: int, k: nat): nat
    decreases n - i
  {
    if i + 1 >= n then 0 else k + ColumnDraws(n, i + 2, k)
  }

  /** The number of random draws one full scan consumes: one per whole 2x2 block. */
  function BlockCount(img: Image): nat {
    ColumnDraws(img.width, 0, Blocks(img.height, 0))
  }

  lemma {:induction false} ColumnDrawsIsProduct(n: int, i: int, k: nat)
    ensures ColumnDraws(n, i, k) == Blocks(n, i) * k
    decreases n - i
  {
    if i + 1 < n {
      ColumnDrawsIsProduct(n, i + 2, k);
      MulSucc(Blocks(n, i + 2), k);
    }
  }

  /** A scan draws once per block: (width / 2) * (height / 2) times. */
  lemma BlockCountClosedForm(img: Image)
    ensures BlockCount(img) == (img.width / 2) * (img.height / 2)
  {
    ColumnDrawsIsProduct(img.width, 0, Blocks(img.height, 0));
    BlocksClosedForm(img.width, 0);
    BlocksClosedForm(img.height, 0);
  }

  /** The generator at the centre of the block at block coordinates (a, b). */
  function BlockCentre(a: int, b: int): Point {
    Point(2 * a + 1, 2 * b + 1)
  }

  /** `p` is the centre of a whole 2x2 block of a w-by-h image: (i + 1, j + 1) with
      i and j even, i <= w - 2 and j <= h - 2. */
  predicate IsBlockCentre(p: Point, w: nat, h: nat) {
    && 0 <= p.x - 1 <= w - 2 && (p.x - 1) % 2 == 0
    && 0 <= p.y - 1 <= h - 2 && (p.y - 1) % 2 == 0
  }

  /** `p` comes before `q` when blocks are scanned x-outer, y-inner. */
  predicate ColumnMajorBefore(p: Point, q: Point) {
    p.x < q.x || (p.x == q.x && p.y < q.y)
  }

  /** The generators of column i, from block row j downwards; the k-th block uses draws[k]. */
  function ScanColumn(img: Image, i: int, j: int, draws: seq<real>): seq<Point>
    requires WellFormed(img) && 0 <= i && i + 1 < img.width && 0 <= j
    requires |draws| >= Blocks(img.height, j)
    decreases img.height - j
  {
    if j + 1 >= img.height then []
    else
      var head := if Accepts(img, i, j, draws[0]) then [Point(i + 1, j + 1)] else [];
      head + ScanColumn(img, i, j + 2, draws[1..])
  }

  /** The shape of a column's generators: on x = c, at odd y in [lo, h), in strictly increasing y. */
  predicate ColumnShaped(ps: seq<Point>, c: int, lo: int, h: int) {
    && (forall k :: 0 <= k < |ps| ==> ps[k].x == c && lo <= ps[k].y < h && ps[k].y % 2 == 1)
    && (forall k, l :: 0 <= k < l < |ps| ==> ps[k].y < ps[l].y)
  }

  /** Putting the block at odd row y in front of the generators of later rows keeps the shape. */
  lemma PrependShaped(head: seq<Point>, rest: seq<Point>, c: int, y: int, h: int)
    requires head == [] || head == [Point(c, y)]
    requires y < h && y % 2 == 1 && ColumnShaped(rest, c, y + 2, h)
    ensures ColumnShaped(head + rest, c, y, h)
  {
    var ps := head + rest;
    assert forall k :: |head| <= k < |ps| ==> ps[k] == rest[k - |head|];
  }

  /** A column's generators lie on x = i + 1 at odd y inside the image, in strictly increasing y. */
  lemma {:induction false} ScanColumnShape(img: Image, i: int, j: int, draws: seq<real>)
    requires WellFormed(img) && 0 <= i && i + 1 < img.width && 0 <= j && j % 2 == 0
    requires |draws| >= Blocks(img.height, j)
    ensures ColumnShaped(ScanColumn(img, i, j, draws), i + 1, j + 1, img.height)
    decreases img.height - j
  {
    if j + 1 < img.height {
      var head := if Accepts(img, i, j, draws[0]) then [Point(i + 1, j + 1)] else [];
      ScanColumnShape(img, i, j + 2, draws[1..]);
      PrependShaped(head, ScanColumn(img, i, j + 2, draws[1..]), i + 1, j + 1, img.height);
    }
  }

  /** The generators of columns i, i + 2, ...; each column uses the next Blocks(height, 0) draws. */
  function ScanColumns(img: Image, i: int, draws: seq<real>): (ps: seq<Point>)
    requires WellFormed(img) && 0 <= i && i % 2 == 0
    requires |draws| >= ColumnDraws(img.width, i, Blocks(img.height, 0))
    ensures forall k :: 0 <= k < |ps| ==>
      && i + 1 <= ps[k].x < img.width && ps[k].x % 2 == 1
      && 1 <= ps[k].y < img.height && ps[k].y % 2 == 1
    ensures forall k, l :: 0 <= k < l < |ps| ==> ColumnMajorBefore(ps[k], ps[l])
    decreases img.width - i
  {
    if i + 1 >= img.width then []
    else
      var k := Blocks(img.height, 0);
      ScanColumnShape(img, i, 0, draws[..k]);
      ScanColumn(img, i, 0, draws[..k]) + ScanColumns(img, i + 2, draws[k..])
  }

  /** The initial generators: every point is the centre of a whole block, and the points
      are distinct and in scan order, column by column. */
  function InitialGenerators(img: Image, draws: seq<real>): (ps: seq<Point>)
    requires WellFormed(img) && |draws| >= BlockCount(img)
    ensures forall p :: p in ps ==> IsBlockCentre(p, img.width, img.height) && InBounds(p, img.width, img.height)
    ensures forall k, l :: 0 <= k < l < |ps| ==> ColumnMajorBefore(ps[k], ps[l])
  {
    ScanColumns(img, 0, draws)
  }

  /** The offset of column n's draws when every column takes k of them. */
  function Stride(n: nat, k: nat): nat {
    if n == 0 then 0 else k + Stride(n - 1, k)
  }

  lemma {:induction false} StrideIsProduct(n: nat, k: nat)
    ensures Stride(n, k) == n * k
  {
    if n > 0 {
      StrideIsProduct(n - 1, k);
      MulSucc(n - 1, k);
    }
  }

  lemma {:induction false} ScanColumnMembers(img: Image, a: int, b0: int, draws: seq<real>)
    requires WellFormed(img) && 0 <= a && 2 * a + 1 < img.width && 0 <= b0
    requires |draws| >= Blocks(img.height, 2 * b0)
    ensures forall b :: b0 <= b && 2 * b + 1 < img.height ==>
      && b - b0 < |draws|
      && (BlockCentre(a, b) in ScanColumn(img, 2 * a, 2 * b0, draws) <==> Accepts(img, 2 * a, 2 * b, draws[b - b0]))
    decreases img.height - 2 * b0
  {
    if 2 * b0 + 1 < img.height {
      var head := if Accepts(img, 2 * a, 2 * b0, draws[0]) then [Point(2 * a + 1, 2 * b0 + 1)] else [];
      var rest := ScanColumn(img, 2 * a, 2 * b0 + 2, draws[1..]);
      assert ScanColumn(img, 2 * a, 2 * b0, draws) == head + rest;
      ScanColumnShape(img, 2 * a, 2 * b0 + 2, draws[1..]);
      ScanColumnMembers(img, a, b0 + 1, draws[1..]);
      assert 2 * (b0 + 1) == 2 * b0 + 2;
      forall b | b0 <= b && 2 * b + 1 < img.height
        ensures BlockCentre(a, b) in head + rest <==> Accepts(img, 2 * a, 2 * b, draws[b - b0])
      {
        if b == b0 {
          assert BlockCentre(a, b) !in rest;
        } else {
          assert BlockCentre(a, b) !in head;
          assert draws[1..][b - (b0 + 1)] == draws[b - b0];
        }
      }
    }
  }

  /** The block (a, b) of the first column of a scan from column 2 * a0. */
  lemma FirstColumnMember(img: Image, a0: int, draws: seq<real>, b: int)
    requires WellFormed(img) && 0 <= a0 && 2 * a0 + 1 < img.width
    requires |draws| >= ColumnDraws(img.width, 2 * a0, Blocks(img.height, 0))
    requires 0 <= b && 2 * b + 1 < img.height
    ensures b < |draws|
    ensures BlockCentre(a0, b) in ScanColumns(img, 2 * a0, draws) <==> Accepts(img, 2 * a0, 2 * b, draws[b])
  {
    var k := Blocks(img.height, 0);
    var column := ScanColumn(img, 2 * a0, 0, draws[..k]);
    var rest := ScanColumns(img, 2 * a0 + 2, draws[k..]);
    assert ScanColumns(img, 2 * a0, draws) == column + rest;
    BlocksClosedForm(img.height, 0);
    ScanColumnMembers(img, a0, 0, draws[..k]);
    assert BlockCentre(a0, b) !in rest;
    assert draws[..k][b - 0] == draws[b];
  }

  /** The block (a, b) of a later column of a scan from column 2 * a0. */
  lemma {:induction false} ScanColumnsMember(img: Image, a0: int, draws: seq<real>, a: int, b: int)
    requires WellFormed(img) && 0 <= a0
    requires |draws| >= ColumnDraws(img.width, 2 * a0, Blocks(img.height, 0))
    requires a0 <= a && 2 * a + 1 < img.width && 0 <= b && 2 * b + 1 < img.height
    ensures Stride(a - a0, Blocks(img.height, 0)) + b < |draws|
    ensures BlockCentre(a, b) in ScanColumns(img, 2 * a0, draws)
      <==> Accepts(img, 2 * a, 2 * b, draws[Stride(a - a0, Blocks(img.height, 0)) + b])
    decreases img.width - 2 * a0
  {
    if a == a0 {
      FirstColumnMember(img, a0, draws, b);
    } else {
      var k := Blocks(img.height, 0);
      var column := ScanColumn(img, 2 * a0, 0, draws[..k]);
      var rest := ScanColumns(img, 2 * (a0 + 1), draws[k..]);
      assert ScanColumns(img, 2 * a0, draws) == column + rest;
      ScanColumnShape(img, 2 * a0, 0, draws[..k]);
      ScanColumnsMember(img, a0 + 1, draws[k..], a, b);
      var j := Stride(a - (a0 + 1), k) + b;
      assert BlockCentre(a, b) !in column;
      assert draws[k..][j] == draws[k + j];
    }
  }

  /** Rejection sampling, block by block: the centre of the block at block coordinates
      (a, b) is a generator exactly when that block's mean brightness fraction is below
      the draw it consumes, the (a * rows + b)-th, with rows the number of block rows. */
  lemma InitialGeneratorsMembers(img: Image, draws: seq<real>)
    requires WellFormed(img) && |draws| >= BlockCount(img)
    ensures forall a, b :: 0 <= a && 2 * a + 1 < img.width && 0 <= b && 2 * b + 1 < img.height ==>
      && a * Blocks(img.height, 0) + b < |draws|
      && (BlockCentre(a, b) in InitialGenerators(img, draws)
          <==> Accepts(img, 2 * a, 2 * b, draws[a * Blocks(img.height, 0) + b]))
  {
    forall a, b | 0 <= a && 2 * a + 1 < img.width && 0 <= b && 2 * b + 1 < img.height
      ensures a * Blocks(img.height, 0) + b < |draws|
      ensures BlockCentre(a, b) in InitialGenerators(img, draws)
        <==> Accepts(img, 2 * a, 2 * b, draws[a * Blocks(img.height, 0) + b])
    {
      ScanColumnsMember(img, 0, draws, a, b);
      StrideIsProduct(a, Blocks(img.height, 0));
    }
  }
}
