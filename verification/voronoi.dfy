/** The discrete Voronoi builder: a multi-source flood fill driven by a priority queue. */
module Voronoi {
  import opened Raster
  import opened LabelGrid

  /** A priority-queue entry `(distance, (x, y), i)`: generator `g` proposes to claim
      pixel `pos`. `d2` is the squared straight-line distance from the generator to `pos`;
      the square root the program takes is strictly increasing, so keys order alike. */
  datatype Entry = Entry(d2: int, pos: Point, g: nat)

  /** The Python tuple order on entries: distance, then x, then y, then generator index. */
  predicate KeyLe(a: Entry, b: Entry) {
    || a.d2 < b.d2
    || (a.d2 == b.d2 && a.pos.x < b.pos.x)
    || (a.d2 == b.d2 && a.pos.x == b.pos.x && a.pos.y < b.pos.y)
    || (a.d2 == b.d2 && a.pos.x == b.pos.x && a.pos.y == b.pos.y && a.g <= b.g)
  }

  /** The tuple order is a total order on entries: any two compare, only equal entries
      compare both ways, and comparisons chain. So the entry popped next is unique. */
  lemma KeyOrder(a: Entry, b: Entry, c: Entry)
    ensures KeyLe(a, b) || KeyLe(b, a)
    ensures KeyLe(a, b) && KeyLe(b, a) ==> a == b
    ensures KeyLe(a, b) && KeyLe(b, c) ==> KeyLe(a, c)
  {
  }

  function SqDist(a: Point, b: Point): int {
    (a.x - b.x) * (a.x - b.x) + (a.y - b.y) * (a.y - b.y)
  }

  lemma SqDistZero(a: Point, b: Point)
    ensures SqDist(a, b) >= 0
    ensures SqDist(a, b) == 0 <==> a == b
  {
    var dx, dy := a.x - b.x, a.y - b.y;
    assert dx * dx >= 0 && dy * dy >= 0;
    if dx != 0 {
      assert dx * dx > 0;
    }
    if dy != 0 {
      assert dy * dy > 0;
    }
  }

  /** The position of the entry the queue hands out next: one no other entry precedes. */
  function MinIndex(q: seq<Entry>): (k: nat)
    requires |q| > 0
    ensures k < |q|
    ensures forall j :: 0 <= j < |q| ==> KeyLe(q[k], q[j])
  {
    if |q| == 1 then 0
    else
      var k' := MinIndex(q[1..]);
      if KeyLe(q[0], q[1 + k']) then 0 else 1 + k'
  }

  /** The queue after taking out the entry at `k`. */
  function RemoveAt(q: seq<Entry>, k: nat): (r: seq<Entry>)
    requires k < |q|
    ensures |r| + 1 == |q|
    ensures forall j :: 0 <= j < |q| && j != k ==> q[j] in r
    ensures forall e :: e in r ==> e in q
    ensures multiset(r) + multiset{q[k]} == multiset(q)
    ensures forall j :: 0 <= j < k ==> r[j] == q[j]
    ensures forall j :: k < j < |q| ==> r[j - 1] == q[j]
  {
    assert q == q[..k] + [q[k]] + q[k + 1..];
    assert forall j :: 0 <= j < k ==> q[j] == (q[..k] + q[k + 1..])[j];
    assert forall j :: k < j < |q| ==> q[j] == (q[..k] + q[k + 1..])[j - 1];
    q[..k] + q[k + 1..]
  }

  /** The seed test exactly as the program writes it: inclusive at both upper ends. */
  predicate SeedAdmitted(p: Point, w: nat, h: nat)
    ensures InBounds(p, w, h) ==> SeedAdmitted(p, w, h)
    ensures SeedAdmitted(p, w, h) && !InBounds(p, w, h) ==> p.x == w || p.y == h
  {
    0 <= p.x <= w && 0 <= p.y <= h
  }

  /** A generator the inclusive seed test lets through although the diagram has no such cell. */
  predicate Overhanging(gens: seq<Point>, w: nat, h: nat) {
    exists i | 0 <= i < |gens| :: SeedAdmitted(gens[i], w, h) && !InBounds(gens[i], w, h)
  }

  /** The distance-0 seeds of generators `i` onwards that pass the seed test, in index order. */
  function Seeds(gens: seq<Point>, w: nat, h: nat, i: nat): (q: seq<Entry>)
    requires i <= |gens|
    ensures |q| <= |gens| - i
    ensures forall e :: e in q ==> i <= e.g < |gens| && e.d2 == 0 && e.pos == gens[e.g] && SeedAdmitted(gens[e.g], w, h)
    ensures forall j :: i <= j < |gens| && SeedAdmitted(gens[j], w, h) ==> Entry(0, gens[j], j) in q
    decreases |gens| - i
  {
    if i == |gens| then []
    else (if SeedAdmitted(gens[i], w, h) then [Entry(0, gens[i], i)] else []) + Seeds(gens, w, h, i + 1)
  }

  /** Some entry of the queue proposes a claim on `n`. */
  ghost predicate Pending(q: seq<Entry>, n: Point) {
    exists e :: e in q && e.pos == n
  }

  /** The entries pushed for the neighbours `nbrs` of a cell generator `g` has just claimed:
      one per in-bounds neighbour that is still unassigned, keyed by its distance to `g`. */
  function Pushes(gens: seq<Point>, labels: seq<seq<int>>, w: nat, h: nat, nbrs: seq<Point>, g: nat): (r: seq<Entry>)
    requires Shaped(labels, w, h) && g < |gens|
    ensures |r| <= |nbrs|
    ensures forall e :: e in r ==>
      && e.pos in nbrs && InBounds(e.pos, w, h) && Label(labels, e.pos) == Unassigned
      && e.g == g && e.d2 == SqDist(e.pos, gens[g])
    ensures forall n :: n in nbrs && InBounds(n, w, h) && Label(labels, n) == Unassigned ==> Pending(r, n)
  {
    if |nbrs| == 0 then []
    else
      var rest := Pushes(gens, labels, w, h, nbrs[1..], g);
      var n := nbrs[0];
      if InBounds(n, w, h) && Label(labels, n) == Unassigned then
        assert Entry(SqDist(n, gens[g]), n, g) in [Entry(SqDist(n, gens[g]), n, g)] + rest;
        [Entry(SqDist(n, gens[g]), n, g)] + rest
      else rest
  }

  /** The flood fill between two pops: the diagram, the queue, and how many entries
      have been put into the queue so far. */
  datatype State = State(labels: seq<seq<int>>, queue: seq<Entry>, insertions: nat)

  /** Every queued entry names an in-bounds cell and an in-bounds generator,
      and its key is that generator's squared distance to the cell. */
  ghost predicate QueueOk(gens: seq<Point>, w: nat, h: nat, q: seq<Entry>) {
    forall e :: e in q ==>
      && InBounds(e.pos, w, h) && e.g < |gens| && InBounds(gens[e.g], w, h)
      && e.d2 == SqDist(e.pos, gens[e.g])
  }

  /** Every cell is unassigned or labelled with the index of an in-bounds generator. */
  ghost predicate ValidLabels(gens: seq<Point>, labels: seq<seq<int>>, w: nat, h: nat)
    requires Shaped(labels, w, h)
  {
    forall p :: InBounds(p, w, h) ==>
      Label(labels, p) == Unassigned || (0 <= Label(labels, p) < |gens| && InBounds(gens[Label(labels, p)], w, h))
  }

  /** Every unassigned neighbour of a labelled cell has a claim waiting in the queue. */
  ghost predicate Frontier(labels: seq<seq<int>>, w: nat, h: nat, q: seq<Entry>)
    requires Shaped(labels, w, h)
  {
    forall p, n ::
      InBounds(p, w, h) && n in Neighbours(p) && InBounds(n, w, h)
      && Label(labels, p) != Unassigned && Label(labels, n) == Unassigned
      ==> Pending(q, n)
  }

  /** `l` is the smallest index of a generator standing where generator `i` stands. */
  ghost predicate LowestAt(gens: seq<Point>, l: int, i: nat)
    requires i < |gens|
  {
    0 <= l <= i && gens[l] == gens[i] && forall j :: 0 <= j < l ==> gens[j] != gens[i]
  }

  /** The cell of an in-bounds generator is either still waiting for that generator's
      seed, or already held by the lowest-indexed generator standing on it. */
  ghost predicate SeedsSettled(gens: seq<Point>, labels: seq<seq<int>>, w: nat, h: nat, q: seq<Entry>)
    requires Shaped(labels, w, h)
  {
    forall i :: 0 <= i < |gens| && InBounds(gens[i], w, h) ==>
      || (Label(labels, gens[i]) == Unassigned && Entry(0, gens[i], i) in q)
      || LowestAt(gens, Label(labels, gens[i]), i)
  }

  /** One turn of the loop: pop the least entry; if its cell is already labelled the entry
      is stale and dropped, otherwise the cell takes the entry's generator and the cell's
      unassigned in-bounds neighbours are queued. */
  function Step(gens: seq<Point>, w: nat, h: nat, s: State): (s': State)
    requires Shaped(s.labels, w, h) && |s.queue| > 0 && QueueOk(gens, w, h, s.queue)
    ensures Shaped(s'.labels, w, h)
    ensures var e := s.queue[MinIndex(s.queue)];
      && InBounds(e.pos, w, h)
      && (forall p :: InBounds(p, w, h) && p != e.pos ==> Label(s'.labels, p) == Label(s.labels, p))
      && (Label(s.labels, e.pos) != Unassigned ==>
            s'.labels == s.labels && |s'.queue| + 1 == |s.queue| && s'.insertions == s.insertions)
      && (Label(s.labels, e.pos) == Unassigned ==>
            Label(s'.labels, e.pos) == e.g && s'.insertions <= s.insertions + 4
            && s'.insertions - s.insertions == |s'.queue| + 1 - |s.queue|)
  {
    var k := MinIndex(s.queue);
    var e := s.queue[k];
    assert e in s.queue;
    var rest := RemoveAt(s.queue, k);
    if Label(s.labels, e.pos) != Unassigned then
      State(s.labels, rest, s.insertions)
    else
      var labels := SetLabel(s.labels, e.pos, e.g);
      var pushed := Pushes(gens, labels, w, h, Neighbours(e.pos), e.g);
      State(labels, rest + pushed, s.insertions + |pushed|)
  }

  /** What one turn does to the queue: only the least entry `e` leaves it. A stale `e` is
      all that leaves, and nothing joins; after a claim, every entry that joins is a
      neighbour of e's cell keyed by its squared distance to e's generator. */
  lemma StepQueue(gens: seq<Point>, w: nat, h: nat, s: State)
    requires Shaped(s.labels, w, h) && |s.queue| > 0 && QueueOk(gens, w, h, s.queue)
    ensures var e := s.queue[MinIndex(s.queue)];
      && multiset(s.queue) - multiset{e} <= multiset(Step(gens, w, h, s).queue)
      && (Label(s.labels, e.pos) != Unassigned ==>
            multiset(Step(gens, w, h, s).queue) + multiset{e} == multiset(s.queue))
      && (Label(s.labels, e.pos) == Unassigned ==>
            forall x: Entry :: x in multiset(Step(gens, w, h, s).queue) - (multiset(s.queue) - multiset{e}) ==>
              x.g == e.g && x.pos in Neighbours(e.pos) && x.d2 == SqDist(x.pos, gens[e.g]))
  {
    var k := MinIndex(s.queue);
    var e := s.queue[k];
    assert e in s.queue;
    var rest := RemoveAt(s.queue, k);
    assert multiset(rest) == multiset(s.queue) - multiset{e};
    if Label(s.labels, e.pos) == Unassigned {
      var labels := SetLabel(s.labels, e.pos, e.g);
      var pushed := Pushes(gens, labels, w, h, Neighbours(e.pos), e.g);
      assert Step(gens, w, h, s).queue == rest + pushed;
      assert multiset(rest + pushed) - multiset(rest) == multiset(pushed);
      forall x: Entry | x in multiset(pushed)
        ensures x.g == e.g && x.pos in Neighbours(e.pos) && x.d2 == SqDist(x.pos, gens[e.g])
      {
        assert x in pushed;
      }
    }
  }

  /** Every in-bounds unassigned neighbour is pushed with its own squared distance as key. */
  lemma PushedNeighbour(gens: seq<Point>, labels: seq<seq<int>>, w: nat, h: nat, nbrs: seq<Point>, g: nat, n: Point)
    requires Shaped(labels, w, h) && g < |gens|
    requires n in nbrs && InBounds(n, w, h) && Label(labels, n) == Unassigned
    ensures Entry(SqDist(n, gens[g]), n, g) in Pushes(gens, labels, w, h, nbrs, g)
  {
    var x :| x in Pushes(gens, labels, w, h, nbrs, g) && x.pos == n;
  }

  /** Claiming cell p leaves each unassigned neighbour n unassigned, so n is pushed. */
  lemma ClaimedNeighbourPushed(gens: seq<Point>, labels: seq<seq<int>>, w: nat, h: nat, p: Point, g: nat, n: Point)
    requires Shaped(labels, w, h) && g < |gens| && InBounds(p, w, h)
    requires n in Neighbours(p) && InBounds(n, w, h) && Label(labels, n) == Unassigned
    ensures Entry(SqDist(n, gens[g]), n, g) in Pushes(gens, SetLabel(labels, p, g), w, h, Neighbours(p), g)
  {
    var claimed := SetLabel(labels, p, g);
    assert n != p;
    assert Label(claimed, n) == Unassigned;
    PushedNeighbour(gens, claimed, w, h, Neighbours(p), g, n);
  }

  /** Claiming cell p for generator g: every in-bounds neighbour of p that was unassigned
      is among the entries added to `rest`, keyed by its squared distance to g. */
  lemma NeighboursJoin(gens: seq<Point>, labels: seq<seq<int>>, w: nat, h: nat, p: Point, g: nat, rest: seq<Entry>)
    requires Shaped(labels, w, h) && g < |gens| && InBounds(p, w, h)
    ensures forall n :: n in Neighbours(p) && InBounds(n, w, h) && Label(labels, n) == Unassigned ==>
      Entry(SqDist(n, gens[g]), n, g)
        in multiset(rest + Pushes(gens, SetLabel(labels, p, g), w, h, Neighbours(p), g)) - multiset(rest)
  {
    var claimed := SetLabel(labels, p, g);
    var pushed := Pushes(gens, claimed, w, h, Neighbours(p), g);
    assert multiset(rest + pushed) - multiset(rest) == multiset(pushed);
    forall n | n in Neighbours(p) && InBounds(n, w, h) && Label(labels, n) == Unassigned
      ensures Entry(SqDist(n, gens[g]), n, g) in multiset(pushed)
    {
      ClaimedNeighbourPushed(gens, labels, w, h, p, g, n);
    }
  }

  /** After a claim, every in-bounds neighbour of the claimed cell that was still
      unassigned joins the queue, keyed by its squared distance to the claiming generator. */
  lemma StepPushesNeighbours(gens: seq<Point>, w: nat, h: nat, s: State)
    requires Shaped(s.labels, w, h) && |s.queue| > 0 && QueueOk(gens, w, h, s.queue)
    ensures var e := s.queue[MinIndex(s.queue)];
      Label(s.labels, e.pos) == Unassigned ==>
        forall n :: n in Neighbours(e.pos) && InBounds(n, w, h) && Label(s.labels, n) == Unassigned ==>
          Entry(SqDist(n, gens[e.g]), n, e.g) in multiset(Step(gens, w, h, s).queue) - (multiset(s.queue) - multiset{e})
  {
    var k := MinIndex(s.queue);
    var e := s.queue[k];
    assert e in s.queue;
    var rest := RemoveAt(s.queue, k);
    assert multiset(rest) == multiset(s.queue) - multiset{e};
    if Label(s.labels, e.pos) == Unassigned {
      NeighboursJoin(gens, s.labels, w, h, e.pos, e.g, rest);
    }
  }

  lemma StepKeepsQueueOk(gens: seq<Point>, w: nat, h: nat, s: State)
    requires Shaped(s.labels, w, h) && |s.queue| > 0 && QueueOk(gens, w, h, s.queue)
    ensures QueueOk(gens, w, h, Step(gens, w, h, s).queue)
  {
    var k := MinIndex(s.queue);
    var e := s.queue[k];
    assert e in s.queue;
  }

  lemma StepKeepsValidLabels(gens: seq<Point>, w: nat, h: nat, s: State)
    requires Shaped(s.labels, w, h) && |s.queue| > 0 && QueueOk(gens, w, h, s.queue)
    requires ValidLabels(gens, s.labels, w, h)
    ensures ValidLabels(gens, Step(gens, w, h, s).labels, w, h)
  {
    var k := MinIndex(s.queue);
    var e := s.queue[k];
    assert e in s.queue;
  }

  /** Dropping a stale entry (one whose cell is labelled) keeps every pending claim the frontier needs. */
  lemma FrontierAfterDrop(labels: seq<seq<int>>, w: nat, h: nat, q: seq<Entry>, k: nat)
    requires Shaped(labels, w, h) && k < |q| && InBounds(q[k].pos, w, h)
    requires Label(labels, q[k].pos) != Unassigned
    requires Frontier(labels, w, h, q)
    ensures Frontier(labels, w, h, RemoveAt(q, k))
  {
    var rest := RemoveAt(q, k);
    forall p, n | InBounds(p, w, h) && n in Neighbours(p) && InBounds(n, w, h)
        && Label(labels, p) != Unassigned && Label(labels, n) == Unassigned
      ensures Pending(rest, n)
    {
      var x :| x in q && x.pos == n;
      var j :| 0 <= j < |q| && q[j] == x;
      assert j != k;
      assert x in rest;
    }
  }

  /** Claiming the cell of `q[k]` and queueing its unassigned neighbours keeps the frontier. */
  lemma FrontierAfterClaim(labels: seq<seq<int>>, w: nat, h: nat, q: seq<Entry>, k: nat,
                           labels': seq<seq<int>>, pushed: seq<Entry>)
    requires Shaped(labels, w, h) && Shaped(labels', w, h) && k < |q| && InBounds(q[k].pos, w, h)
    requires Label(labels', q[k].pos) != Unassigned
    requires forall p :: InBounds(p, w, h) && p != q[k].pos ==> Label(labels', p) == Label(labels, p)
    requires forall n :: n in Neighbours(q[k].pos) && InBounds(n, w, h) && Label(labels', n) == Unassigned ==> Pending(pushed, n)
    requires Frontier(labels, w, h, q)
    ensures Frontier(labels', w, h, RemoveAt(q, k) + pushed)
  {
    var rest := RemoveAt(q, k);
    forall p, n | InBounds(p, w, h) && n in Neighbours(p) && InBounds(n, w, h)
        && Label(labels', p) != Unassigned && Label(labels', n) == Unassigned
      ensures Pending(rest + pushed, n)
    {
      assert n != q[k].pos;
      if p == q[k].pos {
        var x :| x in pushed && x.pos == n;
        assert x in rest + pushed;
      } else {
        assert Label(labels, p) != Unassigned && Label(labels, n) == Unassigned;
        var x :| x in q && x.pos == n;
        var j :| 0 <= j < |q| && q[j] == x;
        assert j != k;
        assert x in rest + pushed;
      }
    }
  }

  lemma StepKeepsFrontier(gens: seq<Point>, w: nat, h: nat, s: State)
    requires Shaped(s.labels, w, h) && |s.queue| > 0 && QueueOk(gens, w, h, s.queue)
    requires Frontier(s.labels, w, h, s.queue)
    ensures Frontier(Step(gens, w, h, s).labels, w, h, Step(gens, w, h, s).queue)
  {
    var k := MinIndex(s.queue);
    var e := s.queue[k];
    assert e in s.queue;
    if Label(s.labels, e.pos) != Unassigned {
      FrontierAfterDrop(s.labels, w, h, s.queue, k);
    } else {
      var labels := SetLabel(s.labels, e.pos, e.g);
      var pushed := Pushes(gens, labels, w, h, Neighbours(e.pos), e.g);
      FrontierAfterClaim(s.labels, w, h, s.queue, k, labels, pushed);
    }
  }

  /** The entry's key is non-negative and vanishes only at its own generator, as a
      squared distance to that generator does. */
  predicate Anchored(gens: seq<Point>, e: Entry) {
    e.g < |gens| && 0 <= e.d2 && (e.d2 == 0 ==> gens[e.g] == e.pos)
  }

  /** An anchored entry at generator i's cell that pops no later than the seed of any
      generator standing there belongs to the lowest-indexed generator standing there. */
  lemma LeastEntryIsLowestSeed(gens: seq<Point>, e: Entry, i: nat)
    requires i < |gens| && Anchored(gens, e) && e.pos == gens[i]
    requires forall j :: 0 <= j < |gens| && gens[j] == gens[i] ==> KeyLe(e, Entry(0, gens[j], j))
    ensures LowestAt(gens, e.g, i)
  {
    assert KeyLe(e, Entry(0, gens[i], i));
  }

  /** While generator i's cell is unassigned, an anchored least queued entry naming that
      cell belongs to the lowest-indexed generator standing there. */
  lemma SeedCellClaim(gens: seq<Point>, w: nat, h: nat, s: State, i: nat)
    requires Shaped(s.labels, w, h) && |s.queue| > 0
    requires SeedsSettled(gens, s.labels, w, h, s.queue)
    requires i < |gens| && InBounds(gens[i], w, h) && Label(s.labels, gens[i]) == Unassigned
    requires Anchored(gens, s.queue[MinIndex(s.queue)]) && s.queue[MinIndex(s.queue)].pos == gens[i]
    ensures LowestAt(gens, s.queue[MinIndex(s.queue)].g, i)
  {
    var k := MinIndex(s.queue);
    var e := s.queue[k];
    forall j | 0 <= j < |gens| && gens[j] == gens[i]
      ensures KeyLe(e, Entry(0, gens[j], j))
    {
      var m :| 0 <= m < |s.queue| && s.queue[m] == Entry(0, gens[j], j);
    }
    LeastEntryIsLowestSeed(gens, e, i);
  }

  lemma StepKeepsSeedsSettled(gens: seq<Point>, w: nat, h: nat, s: State)
    requires Shaped(s.labels, w, h) && |s.queue| > 0 && QueueOk(gens, w, h, s.queue)
    requires SeedsSettled(gens, s.labels, w, h, s.queue)
    ensures SeedsSettled(gens, Step(gens, w, h, s).labels, w, h, Step(gens, w, h, s).queue)
  {
    var k := MinIndex(s.queue);
    var e := s.queue[k];
    var rest := RemoveAt(s.queue, k);
    var s' := Step(gens, w, h, s);
    forall i | 0 <= i < |gens| && InBounds(gens[i], w, h)
      ensures || (Label(s'.labels, gens[i]) == Unassigned && Entry(0, gens[i], i) in s'.queue)
              || LowestAt(gens, Label(s'.labels, gens[i]), i)
    {
      var p := gens[i];
      if Label(s.labels, p) != Unassigned {
        assert Label(s'.labels, p) == Label(s.labels, p);
      } else if e.pos == p {
        assert e in s.queue;
        SqDistZero(e.pos, gens[e.g]);
        SeedCellClaim(gens, w, h, s, i);
        assert Label(s'.labels, p) == e.g;
      } else {
        var seed := Entry(0, p, i);
        assert seed in s.queue && seed != e;
        assert seed in rest;
        assert seed in s'.queue;
      }
    }
  }

  /** What holds of the flood fill between any two pops. */
  ghost predicate Invariant(gens: seq<Point>, w: nat, h: nat, s: State) {
    && Shaped(s.labels, w, h)
    && QueueOk(gens, w, h, s.queue)
    && ValidLabels(gens, s.labels, w, h)
    && Frontier(s.labels, w, h, s.queue)
    && SeedsSettled(gens, s.labels, w, h, s.queue)
    && s.insertions + 4 * CountUnassigned(s.labels) <= |gens| + 4 * (w * h)
    && ((forall i :: 0 <= i < |gens| ==> !InBounds(gens[i], w, h)) ==> s.labels == Blank(w, h))
  }

  /** The blank diagram with every admitted generator seeded satisfies the invariant,
      provided no admitted generator overhangs the grid. */
  lemma InvariantInit(gens: seq<Point>, w: nat, h: nat)
    requires !Overhanging(gens, w, h)
    ensures Invariant(gens, w, h, State(Blank(w, h), Seeds(gens, w, h, 0), |Seeds(gens, w, h, 0)|))
  {
    var seeds := Seeds(gens, w, h, 0);
    CountBlank(w, h);
    SeedsQueueOk(gens, w, h);
    assert Frontier(Blank(w, h), w, h, seeds);
    assert SeedsSettled(gens, Blank(w, h), w, h, seeds);
  }

  /** Without an overhanging generator, the seeds are well-formed queue entries. */
  lemma SeedsQueueOk(gens: seq<Point>, w: nat, h: nat)
    requires !Overhanging(gens, w, h)
    ensures QueueOk(gens, w, h, Seeds(gens, w, h, 0))
  {
    forall e | e in Seeds(gens, w, h, 0)
      ensures InBounds(e.pos, w, h) && InBounds(gens[e.g], w, h) && e.d2 == SqDist(e.pos, gens[e.g])
    {
      SqDistZero(e.pos, e.pos);
    }
  }

  /** A step keeps the invariant and lowers the pair (unassigned cells, queue length). */
  lemma InvariantStep(gens: seq<Point>, w: nat, h: nat, s: State)
    requires Invariant(gens, w, h, s) && |s.queue| > 0
    ensures Invariant(gens, w, h, Step(gens, w, h, s))
    ensures CountUnassigned(Step(gens, w, h, s).labels) < CountUnassigned(s.labels)
      || (CountUnassigned(Step(gens, w, h, s).labels) == CountUnassigned(s.labels)
          && |Step(gens, w, h, s).queue| < |s.queue|)
  {
    var e := s.queue[MinIndex(s.queue)];
    assert e in s.queue;
    StepKeepsQueueOk(gens, w, h, s);
    StepKeepsValidLabels(gens, w, h, s);
    StepKeepsFrontier(gens, w, h, s);
    StepKeepsSeedsSettled(gens, w, h, s);
    var s' := Step(gens, w, h, s);
    if Label(s.labels, e.pos) == Unassigned {
      CountAfterSetLabel(s.labels, e.pos, e.g);
      assert s'.labels == SetLabel(s.labels, e.pos, e.g);
    }
  }

  /** With nothing pending, a frontier-respecting labelling is closed under neighbours. */
  lemma DrainedIsClosed(labels: seq<seq<int>>, w: nat, h: nat)
    requires Shaped(labels, w, h) && Frontier(labels, w, h, [])
    ensures Closed(labels, w, h)
  {
  }

  /** With nothing pending, every in-bounds generator's cell is held by the lowest index there. */
  lemma DrainedIsSettled(gens: seq<Point>, labels: seq<seq<int>>, w: nat, h: nat)
    requires Shaped(labels, w, h) && SeedsSettled(gens, labels, w, h, [])
    ensures forall i :: 0 <= i < |gens| && InBounds(gens[i], w, h) ==> LowestAt(gens, Label(labels, gens[i]), i)
  {
  }

  /** Once the queue is empty, every in-bounds generator's cell is held by the lowest
      generator standing there, and one in-bounds generator means a full diagram. */
  lemma InvariantDone(gens: seq<Point>, w: nat, h: nat, s: State)
    requires Invariant(gens, w, h, s) && |s.queue| == 0
    ensures forall i :: 0 <= i < |gens| && InBounds(gens[i], w, h) ==> LowestAt(gens, Label(s.labels, gens[i]), i)
    ensures (exists i :: 0 <= i < |gens| && InBounds(gens[i], w, h)) ==> Full(s.labels, w, h)
    ensures s.insertions <= |gens| + 4 * (w * h)
  {
    assert s.queue == [];
    DrainedIsSettled(gens, s.labels, w, h);
    if exists i :: 0 <= i < |gens| && InBounds(gens[i], w, h) {
      var i :| 0 <= i < |gens| && InBounds(gens[i], w, h);
      DrainedIsClosed(s.labels, w, h);
      ClosedGridIsFull(s.labels, w, h, gens[i]);
    }
  }

  /** The discrete Voronoi diagram of `gens` over the pixels of `img`.

      Generators passing the inclusive seed test are queued at distance 0; the queue is
      then drained by `Step`. A generator on the far edge (x == width or y == height)
      passes the test but has no cell, and reading its cell aborts with IndexError.
      `insertions` counts the entries ever put into the queue. */
  method BuildDiagram(img: Image, gens: seq<Point>) returns (r: Outcome<seq<seq<int>>>, ghost insertions: nat)
    ensures r.IndexError? <==> Overhanging(gens, img.width, img.height)
    ensures r.Done? ==> Shaped(r.value, img.width, img.height)
    ensures r.Done? ==> ValidLabels(gens, r.value, img.width, img.height)
    ensures r.Done? && (exists i :: 0 <= i < |gens| && InBounds(gens[i], img.width, img.height)) ==>
      Full(r.value, img.width, img.height)
    ensures r.Done? && (forall i :: 0 <= i < |gens| ==> !InBounds(gens[i], img.width, img.height)) ==>
      r.value == Blank(img.width, img.height)
    ensures r.Done? ==> forall i :: 0 <= i < |gens| && InBounds(gens[i], img.width, img.height) ==>
      LowestAt(gens, Label(r.value, gens[i]), i)
    ensures r.Done? ==> insertions <= |gens| + 4 * (img.width * img.height)
  {
    var w, h := img.width, img.height;
    if Overhanging(gens, w, h) {
      return IndexError, 0;
    }
    var seeds := Seeds(gens, w, h, 0);
    var s := State(Blank(w, h), seeds, |seeds|);
    InvariantInit(gens, w, h);
    while |s.queue| > 0
      invariant Invariant(gens, w, h, s)
      decreases CountUnassigned(s.labels), |s.queue|
    {
      InvariantStep(gens, w, h, s);
      s := Step(gens, w, h, s);
    }
    InvariantDone(gens, w, h, s);
    r, insertions := Done(s.labels), s.insertions;
  }
}
