/** The relaxation driver: initial generators, then a fixed number of Lloyd rounds of
    build diagram -> compute centroids -> round the centroids to pixels. */
module Stippling {
  import opened Raster
  import opened LabelGrid
  import opened Voronoi
  import opened Aggregator
  import opened Rounding
  import opened Initializer

  /** The number of relaxation rounds; fixed, not a convergence test. */
  const Rounds: nat := 3

  /** A centroid rounded coordinate-wise to the nearest pixel, halves to even. */
  function RoundCentroid(c: Centroid): (p: Point)
    ensures NearestHalfEven(c.x, p.x) && NearestHalfEven(c.y, p.y)
  {
    Point(RoundHalfEven(c.x), RoundHalfEven(c.y))
  }

  /** A rounded centroid of the w-by-h image is a pixel of it. */
  lemma RoundedCentroidInBounds(c: Centroid, w: nat, h: nat)
    requires w >= 1 && h >= 1 && InBox(c, w, h)
    ensures InBounds(RoundCentroid(c), w, h)
  {
    RoundStaysInRange(c.x, w - 1);
    RoundStaysInRange(c.y, h - 1);
  }

  /** `next` is one Lloyd round from `gens` over the diagram `labels`: `labels` is a
      diagram the flood fill can produce for `gens` (every cell holds a valid generator
      index, the grid is covered when there are generators, each generator's own cell is
      held by the lowest index standing there), every label indexes the accumulator
      lists, and generator k moves to region k's centroid rounded to the nearest pixel. */
  ghost predicate LloydStep(img: Image, gens: seq<Point>, labels: seq<seq<int>>, next: seq<Point>)
    requires WellFormed(img)
  {
    var w, h := img.width, img.height;
    && Indexable(labels, w, h, |gens|)
    && ValidLabels(gens, labels, w, h)
    && (|gens| > 0 ==> Full(labels, w, h))
    && (forall i :: 0 <= i < |gens| && InBounds(gens[i], w, h) ==> LowestAt(gens, Label(labels, gens[i]), i))
    && |next| == |gens|
    && forall k :: 0 <= k < |gens| ==> next[k] == RoundCentroid(Centroids(img, labels, |gens|)[k])
  }

  /** One Lloyd round on generators that all lie on the image. The diagram's labels are
      then all valid indices unless there are no generators at all; in that case the
      image's first pixel keeps the label -1 and reading the accumulators of an empty
      list aborts with IndexError. Otherwise generator k moves to region k's rounded
      centroid, which is again a pixel of the image; `labels` is the diagram used. */
  method RelaxOnce(img: Image, gens: seq<Point>) returns (r: Outcome<seq<Point>>, ghost labels: seq<seq<int>>)
    requires WellFormed(img)
    requires forall p :: p in gens ==> InBounds(p, img.width, img.height)
    ensures r.IndexError? <==> |gens| == 0 && img.width >= 1 && img.height >= 1
    ensures r.Done? ==> LloydStep(img, gens, labels, r.value)
    ensures r.Done? ==> forall p :: p in r.value ==> InBounds(p, img.width, img.height)
  {
    var w, h := img.width, img.height;
    var diagram, _ := BuildDiagram(img, gens);
    assert !Overhanging(gens, w, h) by {
      forall i | 0 <= i < |gens|
        ensures InBounds(gens[i], w, h)
      {
        assert gens[i] in gens;
      }
    }
    var grid := diagram.value;
    labels := grid;
    if |gens| > 0 {
      assert gens[0] in gens;
      assert Full(grid, w, h);
      forall y, x | 0 <= y < h && 0 <= x < w
        ensures -(|gens| as int) <= grid[y][x] < |gens|
      {
        assert Label(grid, Point(x, y)) == grid[y][x];
      }
    } else if w >= 1 && h >= 1 {
      assert grid[0][0] == Label(Blank(w, h), Point(0, 0));
    }
    if !Indexable(grid, w, h, |gens|) {
      return IndexError, grid;
    }
    var cs := Centroids(img, grid, |gens|);
    var next := seq(|cs|, k requires 0 <= k < |cs| => RoundCentroid(cs[k]));
    forall p | p in next
      ensures InBounds(p, w, h)
    {
      var k :| 0 <= k < |next| && next[k] == p;
      RoundedCentroidInBounds(cs[k], w, h);
    }
    r := Done(next);
  }

  /** Stippling an image: the initial generators drawn with `draws`, relaxed `Rounds`
      times. It aborts with IndexError exactly when the image has pixels but yields no
      initial generator; otherwise it returns the last of `Rounds` + 1 generator
      sequences, the first being the initial generators and each next one a Lloyd round
      of the one before over the diagram recorded in `diagrams`. */
  method Stipple(img: Image, draws: seq<real>) returns (r: Outcome<seq<Point>>, ghost history: seq<seq<Point>>, ghost diagrams: seq<seq<seq<int>>>)
    requires WellFormed(img) && |draws| >= BlockCount(img)
    ensures r.IndexError? <==> |InitialGenerators(img, draws)| == 0 && img.width >= 1 && img.height >= 1
    ensures r.Done? ==> |history| == Rounds + 1 && |diagrams| == Rounds
    ensures r.Done? ==> history[0] == InitialGenerators(img, draws) && history[Rounds] == r.value
    ensures r.Done? ==> forall t :: 0 <= t < Rounds ==> LloydStep(img, history[t], diagrams[t], history[t + 1])
    ensures r.Done? ==> |r.value| == |InitialGenerators(img, draws)|
    ensures r.Done? ==> forall p :: p in r.value ==> InBounds(p, img.width, img.height)
  {
    var initial := InitialGenerators(img, draws);
    var gens := initial;
    history, diagrams := [initial], [];
    var round := 0;
    while round < Rounds
      invariant 0 <= round <= Rounds
      invariant |history| == round + 1 && |diagrams| == round
      invariant history[0] == initial && history[round] == gens
      invariant forall t :: 0 <= t < round ==> LloydStep(img, history[t], diagrams[t], history[t + 1])
      invariant |gens| == |initial|
      invariant forall p :: p in gens ==> InBounds(p, img.width, img.height)
      invariant round > 0 ==> !(|initial| == 0 && img.width >= 1 && img.height >= 1)
    {
      var next, labels := RelaxOnce(img, gens);
      if next.IndexError? {
        return IndexError, history, diagrams;
      }
      history, diagrams := history + [next.value], diagrams + [labels];
      gens := next.value;
      round := round + 1;
    }
    r := Done(gens);
  }
}
