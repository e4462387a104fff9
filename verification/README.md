# Weighted-Voronoi stippling, modelled in Dafny

This project models the stippling engine of `stipple.py`. The engine turns a greyscale
image into a set of dots (generators) and relaxes them by a few rounds of Lloyd's
algorithm. Each round:

1. builds a discrete Voronoi diagram of the pixel grid with a priority-queue flood fill;
2. moves every generator to the density-weighted centroid of its region;
3. rounds that centroid back to a pixel.

Dark pixels weigh more, so the dots gather where the image is dark.

The modules follow the program's functions:

| file | module | models |
|---|---|---|
| raster.dfy | `Raster` | the image as a grid of brightness values, pixel density, the IndexError outcome |
| labelgrid.dfy | `LabelGrid` | the label grid (`-1` = unassigned), its 4-neighbourhood, the count of unassigned cells, and why a closed labelling covers the grid |
| voronoi.dfy | `Voronoi` | `get_discrete_voronoi_diagram`: the seeds, the queue's tuple order, one loop turn as the pure function `Step`, the loop invariant and `BuildDiagram` |
| centroids.dfy | `Aggregator` | `get_centroids`: the per-label mass and x/y moments, their quotients, mass conservation |
| rounding.dfy | `Rounding` | Python's one-argument `round` (nearest integer, halves to even) on exact reals |
| initializer.dfy | `Initializer` | `get_initial_generators`: rejection sampling over 2x2 blocks with the random draws given as input |
| stippling.dfy | `Stippling` | `stipple`: three rounds of diagram, centroids and rounding |

## How the code's behaviour is modelled

- **Arithmetic.** Brightness is an integer in [0, 255]. Density `1 - b/255` is an exact
  `real`, and so are the centroid sums and quotients.
- **Priority queue.** The queue is a sequence of entries `(d2, position, generator)`.
  - A pop takes the least entry in the order Python gives the tuple `(distance, (x, y), i)`: distance first, then x, then y, then index.
  - `d2` is the squared distance. The square root is strictly increasing, so this keeps the same order and the same ties.
- **Seed test.** The seed test at `stipple.py:92` is modelled as written, inclusive at both upper ends.
  - A generator with `x == width` or `y == height` passes the test but has no cell.
  - Its seed is popped at distance 0 and indexes past the end of the grid.
  - `BuildDiagram` returns `IndexError` exactly when such a generator exists.
- **Negative labels.** `get_centroids` indexes its accumulator lists with the label, so the label `-1` reaches the last list element, as Python negative indexing does (`Aggregator.Slot`).
  - Every label must lie in `[-n, n)`, with `n` the number of generators.
  - The driver returns `IndexError` when a label falls outside that range.
  - That happens exactly when there are no generators and the image has at least one pixel: every label stays `-1`, and indexing an empty list fails.
  - So an all-white image, or one narrower or shorter than 2 pixels, yields no generators. `get_centroids` then indexes an empty list at `stipple.py:35` and raises IndexError, and the model keeps that.
- **Initializer order.** The initializer's outer loop runs over x and its inner loop over y. Its output is therefore in column-major order over the 2x2 blocks: `ColumnMajorBefore`.
- **Random draws.** These are an input sequence of reals, one per whole 2x2 block, consumed in scan order.

## Model

| member | source | states |
|---|---|---|
| Raster.Density | stipple.py:7-16 | the density of a pixel lies in [0, 1] and determines the brightness back: brightness = 255 * (1 - density) |
| Raster.DarkerIsDenser | stipple.py:15 | one pixel is darker than another exactly when its density is greater |
| LabelGrid.Blank | stipple.py:88 | the initial diagram has the image's shape and every cell is unassigned (-1) |
| LabelGrid.SetLabel | stipple.py:103 | labelling a cell keeps the grid's shape, gives that cell the new label and leaves every other cell as it was |
| LabelGrid.CountBlank | stipple.py:88 | the initial diagram has exactly width * height unassigned cells |
| LabelGrid.CountAfterSetLabel | stipple.py:102-103 | labelling an unassigned cell lowers the number of unassigned cells by exactly one |
| LabelGrid.NeighboursAreAdjacent | stipple.py:105 | the four candidate cells are distinct and are exactly the points at Manhattan distance 1 |
| LabelGrid.ClosedGridIsFull | stipple.py:105-111 | if every labelled cell's in-bounds 4-neighbours are labelled and at least one cell is labelled, then every cell is labelled |
| Voronoi.KeyOrder | stipple.py:96 | the order in which the queue pops tuples `(distance, (x, y), i)` is total, antisymmetric and transitive |
| Voronoi.SeedAdmitted | stipple.py:92 | every pixel of the image passes the seed test; a point that passes without being a pixel lies exactly on x = width or y = height |
| Voronoi.SqDistZero | stipple.py:109-110 | the squared distance is never negative and is zero exactly at the generator itself |
| Voronoi.MinIndex | stipple.py:96 | the popped entry is no greater than any queued entry in the (distance, x, y, index) order |
| Voronoi.RemoveAt | stipple.py:96 | popping removes exactly one entry: the queue shrinks by one, the entries before and after the popped one keep their order, and as a multiset the old queue is the new one plus the popped entry |
| Voronoi.Seeds | stipple.py:91-93 | the seeds are distance-0 entries of generators that pass the inclusive test, and every such generator is seeded |
| Voronoi.Pushes | stipple.py:105-111 | every pushed entry names an in-bounds, unassigned neighbour keyed by its squared distance to the claiming generator; every such neighbour gets an entry; no more entries than neighbours |
| Voronoi.Step | stipple.py:95-111 | one turn: the popped cell is in bounds and no other cell changes; for a stale entry the labels and the insertion count stay as they were and the queue shrinks by one; otherwise the cell takes the entry's generator and the insertion count grows by the at most four entries added |
| Voronoi.StepQueue | stipple.py:95-111 | one turn removes only the least entry from the queue: a stale entry is all that leaves and nothing joins; after a claim every entry that joins is a neighbour of the claimed cell keyed by its squared distance to the claiming generator |
| Voronoi.StepPushesNeighbours | stipple.py:105-111 | after a claim, every in-bounds neighbour of the claimed cell that was still unassigned joins the queue, keyed by its squared distance to the claiming generator |
| Voronoi.StepKeepsQueueOk | stipple.py:105-111 | every queued entry keeps naming an in-bounds cell, an in-bounds generator and that generator's squared distance to the cell |
| Voronoi.StepKeepsValidLabels | stipple.py:102-103 | every cell stays either -1 or the index of an in-bounds generator |
| Voronoi.FrontierAfterDrop | stipple.py:102 | dropping an entry for an already labelled cell keeps a pending claim for every unassigned neighbour of a labelled cell |
| Voronoi.FrontierAfterClaim | stipple.py:102-111 | after a claim and its pushes, every unassigned neighbour of a labelled cell still has a pending claim |
| Voronoi.StepKeepsFrontier | stipple.py:95-111 | one turn keeps a pending claim for every unassigned neighbour of a labelled cell |
| Voronoi.LeastEntryIsLowestSeed | stipple.py:93-96 | an entry at generator i's cell whose key is non-negative and zero only at its own generator, and which pops no later than the seed of any generator standing there, belongs to the lowest-indexed generator standing there |
| Voronoi.SeedCellClaim | stipple.py:93-103 | while a generator's cell is unassigned, the least queued entry naming that cell belongs to the lowest-indexed generator standing there, so that generator claims the cell |
| Voronoi.StepKeepsSeedsSettled | stipple.py:93-103 | the cell of an in-bounds generator is either unassigned with that generator's seed still queued, or held by the lowest index of the generators standing on it |
| Voronoi.SeedsQueueOk | stipple.py:91-93 | without an overhanging generator, every seed names an in-bounds cell at distance 0 from its in-bounds generator |
| Voronoi.InvariantInit | stipple.py:87-93 | the blank diagram with its seeds satisfies the loop invariant, including the bound on insertions |
| Voronoi.InvariantStep | stipple.py:95-111 | each turn keeps the loop invariant and lowers the pair (unassigned cells, queue length), so the loop terminates |
| Voronoi.InvariantDone | stipple.py:95-113 | when the queue is empty: every in-bounds generator's cell holds the lowest index at that cell, the grid is fully labelled if any generator is in bounds, and at most generators + 4 * width * height entries were queued |
| Voronoi.BuildDiagram | stipple.py:79-113 | IndexError exactly when a generator passes the inclusive test off the grid; otherwise every cell is -1 or a valid in-bounds generator index, full coverage when some generator is in bounds, all -1 when none is, seed cells held by the lowest index there, and at most generators + 4 * width * height queue insertions (a ghost count) |
| Aggregator.Slot | stipple.py:35 | a label in [-n, n) selects a slot in [0, n) that is congruent to it modulo n, as Python's negative indexing does |
| Aggregator.AccumulateRow | stipple.py:33-37 | one pass over a row keeps one accumulator per generator |
| Aggregator.AccumulateRows | stipple.py:32-37 | the pass over the first k rows keeps one accumulator per generator |
| Aggregator.RegionMoments | stipple.py:28-37 | one accumulator per generator; the contents are stated by Aggregator.RegionMomentsAreRegionSums and Aggregator.MassConservation |
| Aggregator.CentroidOf | stipple.py:39-42 | with positive mass the centroid times the mass gives back the x- and y-moments; without mass it is (0, 0) |
| Aggregator.Centroids | stipple.py:19-44 | one centroid per generator; (0, 0) for a massless region; otherwise the density-weighted mean of the region; every centroid lies in [0, width-1] x [0, height-1] |
| Aggregator.BalancedCentroidInBox | stipple.py:39-42 | a region whose moments lie between 0 and (width-1), resp. (height-1), times its mass has its centroid on the image |
| Aggregator.AccumulateRowRegion | stipple.py:33-37 | after a row's first k pixels, region g's accumulator has grown by exactly the pixels of that row whose label selects slot g |
| Aggregator.RegionMomentsBalanced | stipple.py:32-42 | each region's x-moment lies between 0 and (width-1) times its mass, and likewise for y, so each centroid lies on the image |
| Aggregator.QuotientBounds | stipple.py:42 | a moment between 0 and b times a positive mass gives a quotient between 0 and b |
| Aggregator.AccumulateRowsSum | stipple.py:32-37 | summed over all regions, the accumulators after k rows equal the total mass and moments of those k rows |
| Aggregator.MassConservation | stipple.py:32-37 | the per-region masses, x-moments and y-moments sum to the whole image's density, x * density and y * density totals |
| Aggregator.AccumulateRowsRegion | stipple.py:32-37 | after k rows, region g's accumulator is the sum over exactly those pixels of the rows whose label indexes slot g |
| Aggregator.RegionMomentsAreRegionSums | stipple.py:32-37 | each region's accumulator is the sum of mass and moments over exactly the pixels whose label indexes it |
| Aggregator.EmptyRegionCentroid | stipple.py:32-42 | a generator whose slot no pixel's label selects keeps the centroid (0, 0) |
| Rounding.RoundHalfEven | stipple.py:127 | the rounded value is within 0.5 of the real and is even when the real lies exactly halfway |
| Rounding.RoundHalfEvenUnique | stipple.py:127 | any integer nearest the real, with halves to even, is the rounded value |
| Rounding.RoundStaysInRange | stipple.py:127 | a real in [0, hi] rounds to an integer in [0, hi] |
| Rounding.RoundIntegerIsIdentity | stipple.py:39-42 | an integer rounds to itself, so the (0, 0) fallback centroid stays at the origin |
| Initializer.BlocksClosedForm | stipple.py:57-58 | the loop `range(s, n - 1, 2)` runs (n - s) / 2 times |
| Initializer.BlockCountClosedForm | stipple.py:57-60 | one scan consumes (width / 2) * (height / 2) random draws, one per whole 2x2 block |
| Initializer.BlockThreshold | stipple.py:59-60 | a block's brightness sum lies in [0, 1020]; the block is kept exactly when that sum is below 1020 times the draw, so always for a draw above 1, never for a draw of 0 or less, and for an all-black block exactly when the draw is positive |
| Initializer.ScanColumnShape | stipple.py:58-61 | a column's generators lie on x = i + 1 at odd y within the image, in strictly increasing y |
| Initializer.ScanColumns | stipple.py:57-61 | the generators lie at odd x and odd y within the image, in column-major order |
| Initializer.InitialGenerators | stipple.py:47-63 | every initial generator is the centre (i + 1, j + 1) of a whole 2x2 block with i, j even, lies on the image, and the points are distinct and in column-major order |
| Initializer.ScanColumnMembers | stipple.py:58-61 | a block of the column is kept exactly when its mean brightness over 255 is below its own draw |
| Initializer.FirstColumnMember | stipple.py:57-61 | in the first scanned column, block b is kept exactly when it accepts the b-th draw |
| Initializer.ScanColumnsMember | stipple.py:57-61 | block (a, b) is kept exactly when it accepts the draw after a full column's worth of draws for each earlier column |
| Initializer.InitialGeneratorsMembers | stipple.py:57-61 | the centre of block (a, b) is an initial generator exactly when the block's mean brightness over 255 is below draw a * rows + b |
| Stippling.RoundCentroid | stipple.py:127 | each coordinate of the new generator is the half-to-even nearest integer of the centroid's coordinate |
| Stippling.RoundedCentroidInBounds | stipple.py:127 | a centroid on the image rounds to a pixel of the image |
| Stippling.RelaxOnce | stipple.py:125-127 | for generators on the image, one round fails exactly when there are none and the image has a pixel; otherwise generator k moves to the rounded centroid of region k of a diagram with every property the flood fill guarantees, and stays on the image |
| Stippling.Stipple | stipple.py:116-130 | stippling fails with IndexError exactly when the image has pixels but no initial generator; otherwise the result is the last of four generator sequences, the first the initial generators and each next one a Lloyd round of the one before, all on the image |

## Left out

- The image file handling, display, drawing and saving in `main.py`: I/O, outside this model.
- The imaging library's `getpixel`, `crop` and `ImageStat.Stat`: the image is a grid of brightness values, and a block's mean is its explicit four-pixel sum over 4.
- `random.random()`: the draws are an input sequence. Their range [0, 1) is not required, because no property depends on it.
- Floating point: `/ 255`, `math.sqrt` and `round` are modelled on exact reals and integers. Rounding errors and float ties are not modelled.
- The `print` calls in `get_initial_generators` and `stipple`: output only.
- `get_initial_generators_2`: it is never called.
- Voronoi.BuildDiagram: it does not say which generator claims a cell that holds no generator. The 4-connected expansion does not always give the nearest generator, and the code does not promise it.
- Stippling.Stipple: each round's diagram is pinned down only as far as Voronoi.BuildDiagram's contract goes. Which generator claims a cell holding no generator is left open, as explained above.
- Stippling.RelaxOnce: the same gap, for a single round.
- Aggregator.AccumulateRow: the contract gives only the length. The contents are stated by Aggregator.AccumulateRowRegion and Aggregator.AccumulateRowSum. Those are kept as separate lemmas so each proof stays small.
- Aggregator.AccumulateRows: the contract gives only the length. The contents are stated by Aggregator.AccumulateRowsRegion and Aggregator.AccumulateRowsSum.
- Aggregator.RegionMoments: the contract gives only the length. The contents are stated by Aggregator.RegionMomentsAreRegionSums and Aggregator.MassConservation.
- Aggregator.Centroids: the bounds on centroids need width and height at least 1. An empty image has no pixels to average.
