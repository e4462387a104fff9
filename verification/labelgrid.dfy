/** The discrete Voronoi diagram as a grid of region labels, `-1` meaning "not yet assigned". */
module LabelGrid {
  import opened Raster

  /** The sentinel of a cell no generator has claimed yet. */
  const Unassigned: int := -1

  /** `labels` has `h` rows of `w` cells each; `labels[y][x]` is the label of pixel (x, y). */
  predicate Shaped(labels: seq<seq<int>>, w: nat, h: nat) {
    |labels| == h && forall y :: 0 <= y < h ==> |labels[y]| == w
  }

  function Label(labels: seq<seq<int>>, p: Point): int
    requires 0 <= p.y < |labels| && 0 <= p.x < |labels[p.y]|
  {
    labels[p.y][p.x]
  }

  /** The grid with the cell at `p` relabelled `v` and every other cell as before. */
  function SetLabel(labels: seq<seq<int>>, p: Point, v: int): (r: seq<seq<int>>)
    requires 0 <= p.y < |labels| && 0 <= p.x < |labels[p.y]|
    ensures |r| == |labels|
    ensures forall y :: 0 <= y < |labels| ==> |r[y]| == |labels[y]|
    ensures Label(r, p) == v
    ensures forall q: Point :: 0 <= q.y < |labels| && 0 <= q.x < |labels[q.y]| && q != p ==> Label(r, q) == Label(labels, q)
  {
    labels[p.y := labels[p.y][p.x := v]]
  }

  /** The freshly created diagram: every one of the w*h cells unassigned. */
  function Blank(w: nat, h: nat): (r: seq<seq<int>>)
    ensures Shaped(r, w, h)
    ensures forall p :: InBounds(p, w, h) ==> Label(r, p) == Unassigned
  {
    seq(h, _ => seq(w, _ => Unassigned))
  }

  function Abs(v: int): nat {
    if v < 0 then -v else v
  }

  /** The four axis neighbours of `p`, in the order the flood fill visits them:
      below, right, above, left. */
  function Neighbours(p: Point): seq<Point> {
    [Point(p.x, p.y + 1), Point(p.x + 1, p.y), Point(p.x, p.y - 1), Point(p.x - 1, p.y)]
  }

  /** The neighbours are exactly the four points at Manhattan distance 1, each listed once. */
  lemma NeighboursAreAdjacent(p: Point)
    ensures |Neighbours(p)| == 4
    ensures forall i, j :: 0 <= i < j < 4 ==> Neighbours(p)[i] != Neighbours(p)[j]
    ensures forall n :: n in Neighbours(p) <==> Abs(n.x - p.x) + Abs(n.y - p.y) == 1
  {
  }

  /** No labelled cell has an unlabelled in-bounds neighbour. */
  ghost predicate Closed(labels: seq<seq<int>>, w: nat, h: nat)
    requires Shaped(labels, w, h)
  {
    forall p, n ::
      InBounds(p, w, h) && n in Neighbours(p) && InBounds(n, w, h) && Label(labels, p) != Unassigned
      ==> Label(labels, n) != Unassigned
  }

  /** Every cell of the grid is labelled. */
  ghost predicate Full(labels: seq<seq<int>>, w: nat, h: nat)
    requires Shaped(labels, w, h)
  {
    forall p :: InBounds(p, w, h) ==> Label(labels, p) != Unassigned
  }

  // ----- counting unassigned cells (the flood fill's termination measure) -----

  function CountRow(row: seq<int>): nat {
    if |row| == 0 then 0 else (if row[0] == Unassigned then 1 else 0) + CountRow(row[1..])
  }

  function CountUnassigned(labels: seq<seq<int>>): nat {
    if |labels| == 0 then 0 else CountRow(labels[0]) + CountUnassigned(labels[1..])
  }

  lemma {:induction false} CountRowAfterSet(row: seq<int>, x: nat, v: int)
    requires x < |row| && row[x] == Unassigned && v != Unassigned
    ensures CountRow(row[x := v]) + 1 == CountRow(row)
    decreases x
  {
    if x == 0 {
      assert row[x := v][1..] == row[1..];
    } else {
      assert row[x := v][1..] == row[1..][x - 1 := v];
      CountRowAfterSet(row[1..], x - 1, v);
    }
  }

  /** Labelling one unassigned cell lowers the number of unassigned cells by exactly one. */
  lemma {:induction false} CountAfterSetLabel(labels: seq<seq<int>>, p: Point, v: int)
    requires 0 <= p.y < |labels| && 0 <= p.x < |labels[p.y]|
    requires Label(labels, p) == Unassigned && v != Unassigned
    ensures CountUnassigned(SetLabel(labels, p, v)) + 1 == CountUnassigned(labels)
    decreases p.y
  {
    var r := SetLabel(labels, p, v);
    if p.y == 0 {
      assert r[1..] == labels[1..];
      CountRowAfterSet(labels[0], p.x, v);
    } else {
      assert r[1..] == SetLabel(labels[1..], Point(p.x, p.y - 1), v);
      CountAfterSetLabel(labels[1..], Point(p.x, p.y - 1), v);
    }
  }

  lemma {:induction false} CountRowAllUnassigned(w: nat)
    ensures CountRow(seq(w, _ => Unassigned)) == w
  {
    if w > 0 {
      assert seq(w, _ => Unassigned)[1..] == seq(w - 1, _ => Unassigned);
      CountRowAllUnassigned(w - 1);
    }
  }

  /** A blank w-by-h diagram has w*h unassigned cells. */
  lemma {:induction false} CountBlank(w: nat, h: nat)
    ensures CountUnassigned(Blank(w, h)) == w * h
  {
    if h > 0 {
      assert Blank(w, h)[1..] == Blank(w, h - 1);
      CountRowAllUnassigned(w);
      CountBlank(w, h - 1);
    }
  }

  // ----- a closed grid with one labelled cell is full -----

  lemma {:induction false} SpreadAlongRow(labels: seq<seq<int>>, w: nat, h: nat, p0: Point, x: int)
    requires Shaped(labels, w, h) && Closed(labels, w, h)
    requires InBounds(p0, w, h) && Label(labels, p0) != Unassigned
    requires 0 <= x < w
    ensures Label(labels, Point(x, p0.y)) != Unassigned
    decreases if x < p0.x then p0.x - x else x - p0.x
  {
    if x < p0.x {
      SpreadAlongRow(labels, w, h, p0, x + 1);
      assert Point(x, p0.y) in Neighbours(Point(x + 1, p0.y));
    } else if x > p0.x {
      SpreadAlongRow(labels, w, h, p0, x - 1);
      assert Point(x, p0.y) in Neighbours(Point(x - 1, p0.y));
    }
  }

  lemma {:induction false} SpreadAlongColumn(labels: seq<seq<int>>, w: nat, h: nat, p0: Point, y: int)
    requires Shaped(labels, w, h) && Closed(labels, w, h)
    requires InBounds(p0, w, h) && Label(labels, p0) != Unassigned
    requires 0 <= y < h
    ensures Label(labels, Point(p0.x, y)) != Unassigned
    decreases if y < p0.y then p0.y - y else y - p0.y
  {
    if y < p0.y {
      SpreadAlongColumn(labels, w, h, p0, y + 1);
      assert Point(p0.x, y) in Neighbours(Point(p0.x, y + 1));
    } else if y > p0.y {
      SpreadAlongColumn(labels, w, h, p0, y - 1);
      assert Point(p0.x, y) in Neighbours(Point(p0.x, y - 1));
    }
  }

  /** The grid is 4-connected: once no labelled cell borders an unlabelled one,
      a single labelled cell means every cell is labelled. */
  lemma ClosedGridIsFull(labels: seq<seq<int>>, w: nat, h: nat, p0: Point)
    requires Shaped(labels, w, h) && Closed(labels, w, h)
    requires InBounds(p0, w, h) && Label(labels, p0) != Unassigned
    ensures Full(labels, w, h)
  {
    forall p | InBounds(p, w, h)
      ensures Label(labels, p) != Unassigned
    {
      SpreadAlongRow(labels, w, h, p0, p.x);
      SpreadAlongColumn(labels, w, h, Point(p.x, p0.y), p.y);
    }
  }
}
