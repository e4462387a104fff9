/** The centroid aggregator: one pass over the pixel grid accumulating, per region,
    the density mass and the x- and y-weighted masses, then one division per region. */
module Aggregator {
  import opened Raster
  import opened LabelGrid

  /** Accumulated mass, x-weighted mass and y-weighted mass. */
  datatype Moments = Moments(mass: real, xMass: real, yMass: real)

  /** A real-valued point; the centroid of one region. */
  datatype Centroid = Centroid(x: real, y: real)

  const NoMoments := Moments(0.0, 0.0, 0.0)

  function Add(a: Moments, b: Moments): Moments {
    Moments(a.mass + b.mass, a.xMass + b.xMass, a.yMass + b.yMass)
  }

  /** What pixel (x, y) contributes: its density d, x*d and y*d. */
  function PixelMoments(img: Image, x: int, y: int): Moments
    requires WellFormed(img) && InBounds(Point(x, y), img.width, img.height)
  {
    var d := Density(img, x, y);
    Moments(d, x as real * d, y as real * d)
  }

  /** The list position Python reads for index `v` of an `n`-element list:
      a negative index counts from the end. */
  function Slot(v: int, n: nat): (s: int)
    ensures -(n as int) <= v < n ==> 0 <= s < n && (s - v) % n == 0
  {
    if v < 0 then v + n else v
  }

  /** Every label of the w-by-h diagram is an index Python accepts on an `n`-element list. */
  predicate Indexable(labels: seq<seq<int>>, w: nat, h: nat, n: nat) {
    && Shaped(labels, w, h)
    && forall y, x | 0 <= y < h && 0 <= x < w :: -(n as int) <= labels[y][x] < n
  }

  /** `acc` with the pixel's contribution added to the accumulators of `slot`. */
  function AddAt(acc: seq<Moments>, slot: int, m: Moments): (r: seq<Moments>)
    requires 0 <= slot < |acc|
    ensures |r| == |acc|
    ensures r[slot] == Add(acc[slot], m)
    ensures forall g :: 0 <= g < |acc| && g != slot ==> r[g] == acc[g]
  {
    acc[slot := Add(acc[slot], m)]
  }

  /** No pixel of the first `rows` rows has a label that selects slot `g`. */
  predicate NoPixelSelects(labels: seq<seq<int>>, n: nat, g: int, w: nat, rows: nat)
    requires rows <= |labels| && forall y :: 0 <= y < rows ==> |labels[y]| == w
  {
    forall y, x | 0 <= y < rows && 0 <= x < w :: Slot(labels[y][x], n) != g
  }

  /** The accumulators after the first `k` pixels of row `y`, in increasing x. */
  function AccumulateRow(img: Image, labels: seq<seq<int>>, n: nat, y: int, k: nat, acc: seq<Moments>): (r: seq<Moments>)
    requires WellFormed(img) && Indexable(labels, img.width, img.height, n)
    requires 0 <= y < img.height && k <= img.width && |acc| == n
    ensures |r| == n
  {
    if k == 0 then acc
    else
      var a := AccumulateRow(img, labels, n, y, k - 1, acc);
      AddAt(a, Slot(labels[y][k - 1], n), PixelMoments(img, k - 1, y))
  }

  /** The accumulators after the first `k` rows, starting from all zeros. */
  function AccumulateRows(img: Image, labels: seq<seq<int>>, n: nat, k: nat): (r: seq<Moments>)
    requires WellFormed(img) && Indexable(labels, img.width, img.height, n)
    requires k <= img.height
    ensures |r| == n
  {
    if k == 0 then seq(n, _ => NoMoments)
    else AccumulateRow(img, labels, n, k - 1, img.width, AccumulateRows(img, labels, n, k - 1))
  }

  /** The per-region accumulators after the full-grid pass. */
  function RegionMoments(img: Image, labels: seq<seq<int>>, n: nat): (r: seq<Moments>)
    requires WellFormed(img) && Indexable(labels, img.width, img.height, n)
    ensures |r| == n
  {
    AccumulateRows(img, labels, n, img.height)
  }

  /** `c` is the mean the moments `m` describe: with positive mass, `c` times the mass
      gives back the x- and y-moments; without mass, `c` is the fallback (0, 0). */
  predicate IsMeanOf(c: Centroid, m: Moments) {
    && (m.mass > 0.0 ==> c.x * m.mass == m.xMass && c.y * m.mass == m.yMass)
    && (m.mass <= 0.0 ==> c == Centroid(0.0, 0.0))
  }

  /** The density-weighted mean position of one region, or (0, 0) when it has no mass. */
  function CentroidOf(m: Moments): (c: Centroid)
    ensures IsMeanOf(c, m)
  {
    if m.mass > 0.0 then Centroid(m.xMass / m.mass, m.yMass / m.mass) else Centroid(0.0, 0.0)
  }

  /** `c` lies in the pixel rectangle [0, w-1] x [0, h-1]. */
  predicate InBox(c: Centroid, w: nat, h: nat) {
    0.0 <= c.x <= (w - 1) as real && 0.0 <= c.y <= (h - 1) as real
  }

  /** One centroid per generator index: the weighted mean of region g's pixels when
      the region has mass, (0, 0) when it has none; every centroid lies on the image. */
  function Centroids(img: Image, labels: seq<seq<int>>, n: nat): (cs: seq<Centroid>)
    requires WellFormed(img) && Indexable(labels, img.width, img.height, n)
    ensures |cs| == n
    ensures forall g :: 0 <= g < n ==> IsMeanOf(cs[g], RegionMoments(img, labels, n)[g])
    ensures img.width >= 1 && img.height >= 1 ==> forall g :: 0 <= g < n ==> InBox(cs[g], img.width, img.height)
  {
    var m := RegionMoments(img, labels, n);
    RegionMomentsBalanced(img, labels, n);
    seq(n, g requires 0 <= g < n => CentroidOf(m[g]))
  }

  // ----- every centroid lies on the image -----

  /** The accumulators of one region are consistent with pixels inside a w-by-h grid. */
  predicate Balanced(m: Moments, w: nat, h: nat) {
    && 0.0 <= m.mass
    && 0.0 <= m.xMass <= (w - 1) as real * m.mass
    && 0.0 <= m.yMass <= (h - 1) as real * m.mass
  }

  lemma PixelBalanced(img: Image, x: int, y: int)
    requires WellFormed(img) && InBounds(Point(x, y), img.width, img.height)
    ensures Balanced(PixelMoments(img, x, y), img.width, img.height)
  {
    WeightedPointBalanced(x, y, Density(img, x, y), img.width, img.height);
  }

  /** A non-negative weight at a point of a w-by-h grid gives balanced moments. */
  lemma WeightedPointBalanced(x: int, y: int, d: real, w: nat, h: nat)
    requires 0 <= x < w && 0 <= y < h && 0.0 <= d
    ensures Balanced(Moments(d, x as real * d, y as real * d), w, h)
  {
    ScaleLe(x as real, (w - 1) as real, d);
    ScaleLe(y as real, (h - 1) as real, d);
  }

  lemma ScaleLe(a: real, b: real, d: real)
    requires 0.0 <= a <= b && 0.0 <= d
    ensures 0.0 <= a * d <= b * d
  {
    assert (b - a) * d >= 0.0;
  }

  lemma AddBalanced(a: Moments, b: Moments, w: nat, h: nat)
    requires Balanced(a, w, h) && Balanced(b, w, h)
    ensures Balanced(Add(a, b), w, h)
  {
    assert (w - 1) as real * (a.mass + b.mass) == (w - 1) as real * a.mass + (w - 1) as real * b.mass;
    assert (h - 1) as real * (a.mass + b.mass) == (h - 1) as real * a.mass + (h - 1) as real * b.mass;
  }

  lemma {:induction false} AccumulateRowBalanced(img: Image, labels: seq<seq<int>>, n: nat, y: int, k: nat, acc: seq<Moments>)
    requires WellFormed(img) && Indexable(labels, img.width, img.height, n)
    requires 0 <= y < img.height && k <= img.width && |acc| == n
    requires forall g :: 0 <= g < n ==> Balanced(acc[g], img.width, img.height)
    ensures forall g :: 0 <= g < n ==> Balanced(AccumulateRow(img, labels, n, y, k, acc)[g], img.width, img.height)
  {
    if k > 0 {
      AccumulateRowBalanced(img, labels, n, y, k - 1, acc);
      var a := AccumulateRow(img, labels, n, y, k - 1, acc);
      var slot := Slot(labels[y][k - 1], n);
      PixelBalanced(img, k - 1, y);
      AddBalanced(a[slot], PixelMoments(img, k - 1, y), img.width, img.height);
    }
  }

  lemma {:induction false} AccumulateRowsBalanced(img: Image, labels: seq<seq<int>>, n: nat, k: nat)
    requires WellFormed(img) && Indexable(labels, img.width, img.height, n)
    requires k <= img.height
    ensures forall g :: 0 <= g < n ==> Balanced(AccumulateRows(img, labels, n, k)[g], img.width, img.height)
  {
    if k > 0 {
      AccumulateRowsBalanced(img, labels, n, k - 1);
      AccumulateRowBalanced(img, labels, n, k - 1, img.width, AccumulateRows(img, labels, n, k - 1));
    }
  }

  lemma RegionMomentsBalanced(img: Image, labels: seq<seq<int>>, n: nat)
    requires WellFormed(img) && Indexable(labels, img.width, img.height, n)
    ensures forall g :: 0 <= g < n ==> Balanced(RegionMoments(img, labels, n)[g], img.width, img.height)
    ensures img.width >= 1 && img.height >= 1 ==>
      forall g :: 0 <= g < n ==> InBox(CentroidOf(RegionMoments(img, labels, n)[g]), img.width, img.height)
  {
    AccumulateRowsBalanced(img, labels, n, img.height);
    var m := RegionMoments(img, labels, n);
    forall g | 0 <= g < n && img.width >= 1 && img.height >= 1
      ensures InBox(CentroidOf(m[g]), img.width, img.height)
    {
      BalancedCentroidInBox(m[g], img.width, img.height);
    }
  }

  /** The centroid of moments gathered from pixels of a w-by-h grid lies on that grid. */
  lemma BalancedCentroidInBox(m: Moments, w: nat, h: nat)
    requires w >= 1 && h >= 1 && Balanced(m, w, h)
    ensures InBox(CentroidOf(m), w, h)
  {
    if m.mass > 0.0 {
      QuotientBounds(m.xMass, m.mass, (w - 1) as real);
      QuotientBounds(m.yMass, m.mass, (h - 1) as real);
    }
  }

  lemma QuotientBounds(a: real, m: real, b: real)
    requires m > 0.0 && 0.0 <= a <= b * m
    ensures 0.0 <= a / m <= b
  {
    var c := a / m;
    assert c * m == a;
    assert (b - c) * m == b * m - a;
  }

  // ----- mass conservation -----

  /** The moments of the first `k` pixels of row `y`, summed over every pixel. */
  function RowTotal(img: Image, y: int, k: nat): Moments
    requires WellFormed(img) && 0 <= y < img.height && k <= img.width
  {
    if k == 0 then NoMoments else Add(RowTotal(img, y, k - 1), PixelMoments(img, k - 1, y))
  }

  /** The moments of every pixel of the first `k` rows: the whole image when k == height. */
  function GridTotal(img: Image, k: nat): Moments
    requires WellFormed(img) && k <= img.height
  {
    if k == 0 then NoMoments else Add(GridTotal(img, k - 1), RowTotal(img, k - 1, img.width))
  }

  /** The sum of a sequence of accumulators. */
  function SumAll(acc: seq<Moments>): Moments {
    if |acc| == 0 then NoMoments else Add(SumAll(acc[..|acc| - 1]), acc[|acc| - 1])
  }

  lemma {:induction false} SumAllAddAt(acc: seq<Moments>, slot: int, m: Moments)
    requires 0 <= slot < |acc|
    ensures SumAll(AddAt(acc, slot, m)) == Add(SumAll(acc), m)
    decreases |acc|
  {
    var r := AddAt(acc, slot, m);
    if slot == |acc| - 1 {
      assert r[..|r| - 1] == acc[..|acc| - 1];
    } else {
      assert r[..|r| - 1] == AddAt(acc[..|acc| - 1], slot, m);
      SumAllAddAt(acc[..|acc| - 1], slot, m);
    }
  }

  lemma {:induction false} SumAllZeros(n: nat)
    ensures SumAll(seq(n, _ => NoMoments)) == NoMoments
  {
    if n > 0 {
      assert seq(n, _ => NoMoments)[..n - 1] == seq(n - 1, _ => NoMoments);
      SumAllZeros(n - 1);
    }
  }

  lemma {:induction false} AccumulateRowSum(img: Image, labels: seq<seq<int>>, n: nat, y: int, k: nat, acc: seq<Moments>)
    requires WellFormed(img) && Indexable(labels, img.width, img.height, n)
    requires 0 <= y < img.height && k <= img.width && |acc| == n
    ensures SumAll(AccumulateRow(img, labels, n, y, k, acc)) == Add(SumAll(acc), RowTotal(img, y, k))
  {
    if k > 0 {
      AccumulateRowSum(img, labels, n, y, k - 1, acc);
      var a := AccumulateRow(img, labels, n, y, k - 1, acc);
      SumAllAddAt(a, Slot(labels[y][k - 1], n), PixelMoments(img, k - 1, y));
    }
  }

  lemma {:induction false} AccumulateRowsSum(img: Image, labels: seq<seq<int>>, n: nat, k: nat)
    requires WellFormed(img) && Indexable(labels, img.width, img.height, n)
    requires k <= img.height
    ensures SumAll(AccumulateRows(img, labels, n, k)) == GridTotal(img, k)
  {
    if k == 0 {
      SumAllZeros(n);
    } else {
      AccumulateRowsSum(img, labels, n, k - 1);
      AccumulateRowSum(img, labels, n, k - 1, img.width, AccumulateRows(img, labels, n, k - 1));
    }
  }

  /** Mass conservation: summed over all regions, the mass, x-mass and y-mass equal the
      density, x*density and y*density summed over every pixel of the image. */
  lemma MassConservation(img: Image, labels: seq<seq<int>>, n: nat)
    requires WellFormed(img) && Indexable(labels, img.width, img.height, n)
    ensures SumAll(RegionMoments(img, labels, n)) == GridTotal(img, img.height)
  {
    AccumulateRowsSum(img, labels, n, img.height);
  }

  // ----- each region's accumulators are the sum over its own pixels -----

  /** The moments of those of the first `k` pixels of row `y` that fall into region `g`. */
  function RowRegion(img: Image, labels: seq<seq<int>>, n: nat, g: int, y: int, k: nat): Moments
    requires WellFormed(img) && Indexable(labels, img.width, img.height, n)
    requires 0 <= y < img.height && k <= img.width
  {
    if k == 0 then NoMoments
    else
      var before := RowRegion(img, labels, n, g, y, k - 1);
      if Slot(labels[y][k - 1], n) == g then Add(before, PixelMoments(img, k - 1, y)) else before
  }

  /** The moments of the pixels of the first `k` rows that fall into region `g`. */
  function GridRegion(img: Image, labels: seq<seq<int>>, n: nat, g: int, k: nat): Moments
    requires WellFormed(img) && Indexable(labels, img.width, img.height, n)
    requires k <= img.height
  {
    if k == 0 then NoMoments else Add(GridRegion(img, labels, n, g, k - 1), RowRegion(img, labels, n, g, k - 1, img.width))
  }

  lemma {:induction false} AccumulateRowRegion(img: Image, labels: seq<seq<int>>, n: nat, g: int, y: int, k: nat, acc: seq<Moments>)
    requires WellFormed(img) && Indexable(labels, img.width, img.height, n)
    requires 0 <= y < img.height && k <= img.width && |acc| == n && 0 <= g < n
    ensures AccumulateRow(img, labels, n, y, k, acc)[g] == Add(acc[g], RowRegion(img, labels, n, g, y, k))
  {
    if k > 0 {
      AccumulateRowRegion(img, labels, n, g, y, k - 1, acc);
    }
  }

  lemma {:induction false} AccumulateRowsRegion(img: Image, labels: seq<seq<int>>, n: nat, g: int, k: nat)
    requires WellFormed(img) && Indexable(labels, img.width, img.height, n)
    requires k <= img.height && 0 <= g < n
    ensures AccumulateRows(img, labels, n, k)[g] == GridRegion(img, labels, n, g, k)
  {
    if k > 0 {
      AccumulateRowsRegion(img, labels, n, g, k - 1);
      AccumulateRowRegion(img, labels, n, g, k - 1, img.width, AccumulateRows(img, labels, n, k - 1));
    }
  }

  /** The one-pass scatter into per-region accumulators computes, for each region, the
      moments of exactly the pixels whose label selects that region. */
  lemma RegionMomentsAreRegionSums(img: Image, labels: seq<seq<int>>, n: nat, g: int)
    requires WellFormed(img) && Indexable(labels, img.width, img.height, n) && 0 <= g < n
    ensures RegionMoments(img, labels, n)[g] == GridRegion(img, labels, n, g, img.height)
  {
    AccumulateRowsRegion(img, labels, n, g, img.height);
  }

  /** A region no pixel's label selects has no mass and no moments. */
  lemma {:induction false} EmptyRowRegion(img: Image, labels: seq<seq<int>>, n: nat, g: int, y: int, k: nat)
    requires WellFormed(img) && Indexable(labels, img.width, img.height, n)
    requires 0 <= y < img.height && k <= img.width
    requires forall x :: 0 <= x < k ==> Slot(labels[y][x], n) != g
    ensures RowRegion(img, labels, n, g, y, k) == NoMoments
  {
    if k > 0 {
      EmptyRowRegion(img, labels, n, g, y, k - 1);
    }
  }

  lemma {:induction false} EmptyGridRegion(img: Image, labels: seq<seq<int>>, n: nat, g: int, k: nat)
    requires WellFormed(img) && Indexable(labels, img.width, img.height, n)
    requires k <= img.height && NoPixelSelects(labels, n, g, img.width, k)
    ensures GridRegion(img, labels, n, g, k) == NoMoments
  {
    if k > 0 {
      EmptyGridRegion(img, labels, n, g, k - 1);
      EmptyRowRegion(img, labels, n, g, k - 1, img.width);
    }
  }

  /** A generator whose label no pixel carries keeps the fallback centroid (0, 0). */
  lemma EmptyRegionCentroid(img: Image, labels: seq<seq<int>>, n: nat, g: int)
    requires WellFormed(img) && Indexable(labels, img.width, img.height, n) && 0 <= g < n
    requires NoPixelSelects(labels, n, g, img.width, img.height)
    ensures Centroids(img, labels, n)[g] == Centroid(0.0, 0.0)
  {
    RegionMomentsAreRegionSums(img, labels, n, g);
    EmptyGridRegion(img, labels, n, g, img.height);
  }
}
