/** The standard H.263 motion estimator: for every 16x16 block of the input image, in
    raster order, a full-pel search of the reference image over the block's window, a
    half-pel refinement around the winner, and the decision between the refined vector and
    the zero vector. The chosen vectors go into a simple vector list, one per block. */
module MotionEstimation {
  import opened BitArith
  import opened MotionSearch
  import opened VectorStructs

  /** How many block origins 0, 16, 32, ... lie below `size`. */
  function CeilBlocks(size: int): (c: nat)
    ensures size > 0 ==> 16 * (c - 1) < size <= 16 * c
  {
    if size <= 0 then 0 else (size + BlockSize - 1) / BlockSize
  }

  /** The origins of the first i blocks of block row j. */
  function BlockRow(i: nat, j: nat): seq<Coord>
  {
    if i == 0 then [] else BlockRow(i - 1, j) + [Coord(16 * (i - 1), 16 * j)]
  }

  /** The origins of the first j block rows, `across` blocks each, in raster order. */
  function BlockGrid(across: nat, j: nat): seq<Coord>
  {
    if j == 0 then [] else BlockGrid(across, j - 1) + BlockRow(across, j - 1)
  }

  /** The block origins the estimator visits, in the order it visits them. */
  function Blocks(width: int, height: int): seq<Coord>
  {
    BlockGrid(CeilBlocks(width), CeilBlocks(height))
  }

  /** `numVecs` of Create: the number of whole blocks. */
  function NumVectors(width: nat, height: nat): nat
  {
    (width / BlockSize) * (height / BlockSize)
  }

  /** What the estimator computes for the block with origin c. */
  function OutcomeAt(d: PixelDistance, width: int, height: int, c: Coord): Outcome
  {
    BlockOutcome(d, width, height, c.x, c.y)
  }

  /** f gives the estimator's outcome at every block origin. */
  ghost predicate Models(f: Coord -> Outcome, d: PixelDistance, width: int, height: int)
  {
    forall c {:trigger OutcomeAt(d, width, height, c)} :: f(c) == OutcomeAt(d, width, height, c)
  }

  /** f applied to each of the given blocks, in order. */
  function OutcomesBy(f: Coord -> Outcome, blocks: seq<Coord>): (r: seq<Outcome>)
    ensures |r| == |blocks|
  {
    if |blocks| == 0 then [] else OutcomesBy(f, blocks[..|blocks| - 1]) + [f(blocks[|blocks| - 1])]
  }

  /** What the estimator computes for each of the given blocks, in order. */
  function Outcomes(d: PixelDistance, width: int, height: int, blocks: seq<Coord>): (r: seq<Outcome>)
    ensures |r| == |blocks|
  {
    OutcomesBy((c: Coord) => OutcomeAt(d, width, height, c), blocks)
  }

  /** The sum of the energies of some outcomes. */
  function EnergySum(outs: seq<Outcome>): int
  {
    if |outs| == 0 then 0 else EnergySum(outs[..|outs| - 1]) + outs[|outs| - 1].energy
  }

  /** The vectors of some outcomes as the list stores them. */
  function StoredVectors(outs: seq<Outcome>): (v: seq<Vec2>)
    ensures |v| == |outs|
    ensures forall k | 0 <= k < |outs| :: v[k] == StoredVector(outs[k].vec)
  {
    if |outs| == 0 then [] else StoredVectors(outs[..|outs| - 1]) + [StoredVector(outs[|outs| - 1].vec)]
  }

  /** The energy the estimator adds up over the given blocks. */
  function TotalEnergy(d: PixelDistance, width: int, height: int, blocks: seq<Coord>): int
  {
    EnergySum(Outcomes(d, width, height, blocks))
  }

  /** The energy of the same blocks if every block kept the zero vector. */
  function ZeroTotal(d: PixelDistance, blocks: seq<Coord>): int
  {
    if |blocks| == 0 then 0
    else
      var b := blocks[|blocks| - 1];
      ZeroTotal(d, blocks[..|blocks| - 1]) + ZeroEnergy(d, b.x, b.y)
  }

  /** A vector as the list stores it: each component truncated to a short. */
  function StoredVector(c: Coord): (v: Vec2)
    ensures MinVector <= c.x <= MaxVector && MinVector <= c.y <= MaxVector ==> v.x == c.x && v.y == c.y
  {
    Vec2(ToShort(c.x), ToShort(c.y))
  }

  function Min(a: int, b: int): int
  {
    if a <= b then a else b
  }

  /** The number of blocks below `size` is CeilBlocks(size). */
  lemma CeilBlocksCounts(size: int, i: nat)
    ensures 16 * i < size <==> i < CeilBlocks(size)
  {
  }

  lemma {:induction false} BlockRowShape(i: nat, j: nat)
    ensures |BlockRow(i, j)| == i
    ensures forall k | 0 <= k < i :: BlockRow(i, j)[k] == Coord(16 * k, 16 * j)
  {
    if i > 0 {
      BlockRowShape(i - 1, j);
    }
  }

  /** Block a comes before block b in raster order: an earlier row, or the same row
      further left. */
  predicate RasterBefore(a: Coord, b: Coord)
  {
    a.y < b.y || (a.y == b.y && a.x < b.x)
  }

  lemma {:induction false} BlockGridLength(across: nat, j: nat)
    ensures |BlockGrid(across, j)| == across * j
  {
    if j > 0 {
      BlockGridLength(across, j - 1);
      BlockRowShape(across, j - 1);
      assert across * (j - 1) + across == across * j;
    }
  }

  /** Origin c is a multiple of 16 with room for a whole block inside a grid of `across`
      by `rows` blocks. */
  predicate InsideGrid(c: Coord, across: int, rows: int)
  {
    c.x % BlockSize == 0 && 0 <= c.x && c.x + BlockSize <= 16 * across
    && c.y % BlockSize == 0 && 0 <= c.y && c.y + BlockSize <= 16 * rows
  }

  lemma RowOriginInside(k: nat, across: nat, j: nat)
    requires k < across
    ensures InsideGrid(Coord(16 * k, 16 * j), across, j + 1)
  {
  }

  lemma InsideGridGrows(c: Coord, across: int, rows: int)
    requires InsideGrid(c, across, rows)
    ensures InsideGrid(c, across, rows + 1)
  {
  }

  /** Every origin of the grid lies inside it. */
  lemma {:induction false} BlockGridBounds(across: nat, j: nat)
    ensures forall p | 0 <= p < |BlockGrid(across, j)| :: InsideGrid(BlockGrid(across, j)[p], across, j)
  {
    if j > 0 {
      BlockGridBounds(across, j - 1);
      BlockRowShape(across, j - 1);
      var prev := BlockGrid(across, j - 1);
      var row := BlockRow(across, j - 1);
      var grid := BlockGrid(across, j);
      forall p | 0 <= p < |grid|
        ensures InsideGrid(grid[p], across, j)
      {
        if p < |prev| {
          assert grid[p] == prev[p];
          InsideGridGrows(prev[p], across, j - 1);
        } else {
          var k := p - |prev|;
          assert grid[p] == row[k];
          RowOriginInside(k, across, j - 1);
        }
      }
    }
  }

  /** The grid lists its origins in raster order. */
  lemma {:induction false} BlockGridRaster(across: nat, j: nat)
    ensures forall p, q | 0 <= p < q < |BlockGrid(across, j)| ::
      RasterBefore(BlockGrid(across, j)[p], BlockGrid(across, j)[q])
  {
    if j > 0 {
      BlockGridRaster(across, j - 1);
      BlockGridBounds(across, j - 1);
      BlockRowShape(across, j - 1);
      var prev := BlockGrid(across, j - 1);
      var row := BlockRow(across, j - 1);
      var grid := BlockGrid(across, j);
      forall p, q | 0 <= p < q < |grid|
        ensures RasterBefore(grid[p], grid[q])
      {
        if q < |prev| {
          assert grid[p] == prev[p] && grid[q] == prev[q];
        } else if p < |prev| {
          assert grid[p] == prev[p] && InsideGrid(prev[p], across, j - 1);
          assert grid[q] == row[q - |prev|];
        } else {
          assert grid[p] == row[p - |prev|] && grid[q] == row[q - |prev|];
        }
      }
    }
  }

  /** Every visited origin is a multiple of 16 inside the image, and the estimator visits
      them in raster order. */
  lemma BlocksInsideImage(width: int, height: int)
    ensures forall p | 0 <= p < |Blocks(width, height)| ::
      var c := Blocks(width, height)[p];
      c.x % BlockSize == 0 && 0 <= c.x < width && c.y % BlockSize == 0 && 0 <= c.y < height
    ensures forall p, q | 0 <= p < q < |Blocks(width, height)| ::
      RasterBefore(Blocks(width, height)[p], Blocks(width, height)[q])
  {
    BlockGridBounds(CeilBlocks(width), CeilBlocks(height));
    BlockGridRaster(CeilBlocks(width), CeilBlocks(height));
  }

  lemma MulMonotone(a: nat, b: nat, c: nat, d: nat)
    requires a <= c && b <= d
    ensures a * b <= c * d
  {
    assert c * b - a * b == (c - a) * b;
    assert c * d - c * b == c * (d - b);
  }

  /** Create sizes the list for the whole blocks only, which never exceeds the blocks
      visited, and equals them when both sides are multiples of 16. */
  lemma NumVectorsAtMostBlocks(width: nat, height: nat)
    ensures NumVectors(width, height) <= |Blocks(width, height)|
    ensures width % BlockSize == 0 && height % BlockSize == 0 ==>
      NumVectors(width, height) == |Blocks(width, height)|
  {
    var across, rows := CeilBlocks(width), CeilBlocks(height);
    BlockGridLength(across, rows);
    MulMonotone(width / BlockSize, height / BlockSize, across, rows);
  }

  /** Outcome k of f is f at block k. */
  lemma {:induction false} OutcomesByAt(f: Coord -> Outcome, blocks: seq<Coord>, k: nat)
    requires k < |blocks|
    ensures OutcomesBy(f, blocks)[k] == f(blocks[k])
  {
    var prefix := blocks[..|blocks| - 1];
    if k < |blocks| - 1 {
      OutcomesByAt(f, prefix, k);
      assert blocks[k] == prefix[k];
    }
  }

  /** Outcome k is the outcome of block k. */
  lemma OutcomesAt(d: PixelDistance, width: int, height: int, blocks: seq<Coord>, k: nat)
    requires k < |blocks|
    ensures Outcomes(d, width, height, blocks)[k] == BlockOutcome(d, width, height, blocks[k].x, blocks[k].y)
  {
    OutcomesByAt((c: Coord) => OutcomeAt(d, width, height, c), blocks, k);
  }

  /** A modelling function agrees with the estimator at one block. */
  lemma ModelAt(f: Coord -> Outcome, d: PixelDistance, width: int, height: int, c: Coord, o: Outcome)
    requires Models(f, d, width, height)
    requires o == OutcomeAt(d, width, height, c)
    ensures o == f(c)
  {
  }

  /** Any f that models the estimator gives the outcomes of the specification. */
  lemma {:induction false} OutcomesByModel(f: Coord -> Outcome, d: PixelDistance, width: int, height: int, blocks: seq<Coord>)
    requires Models(f, d, width, height)
    ensures OutcomesBy(f, blocks) == Outcomes(d, width, height, blocks)
  {
    if |blocks| > 0 {
      OutcomesByModel(f, d, width, height, blocks[..|blocks| - 1]);
      assert f(blocks[|blocks| - 1]) == OutcomeAt(d, width, height, blocks[|blocks| - 1]);
    }
  }

  /** The energies of modelled outcomes stay between 0 and the zero-vector energies, and
      are all zero, with zero vectors, when the zero-vector energies are. */
  lemma {:induction false} EnergySumBounds(f: Coord -> Outcome, d: PixelDistance, width: int, height: int, blocks: seq<Coord>)
    requires Models(f, d, width, height)
    ensures 0 <= EnergySum(OutcomesBy(f, blocks)) <= ZeroTotal(d, blocks)
    ensures ZeroTotal(d, blocks) == 0 ==>
      EnergySum(OutcomesBy(f, blocks)) == 0
      && forall k | 0 <= k < |blocks| :: OutcomesBy(f, blocks)[k].vec == Coord(0, 0)
  {
    if |blocks| > 0 {
      var prefix := blocks[..|blocks| - 1];
      var b := blocks[|blocks| - 1];
      var outs := OutcomesBy(f, prefix);
      var o := OutcomeAt(d, width, height, b);
      assert f(b) == o;
      EnergySumBounds(f, d, width, height, prefix);
      ZeroTotalNonNegative(d, prefix);
      BlockOutcomeBounds(d, width, height, b.x, b.y);
      assert OutcomesBy(f, blocks) == outs + [o];
      EnergySumAppend(outs, o);
      if ZeroTotal(d, blocks) == 0 {
        forall k | 0 <= k < |blocks|
          ensures OutcomesBy(f, blocks)[k].vec == Coord(0, 0)
        {
          if k < |blocks| - 1 {
            assert OutcomesBy(f, blocks)[k] == outs[k];
          }
        }
      }
    }
  }

  /** The estimate never adds more energy than the zero vectors would, and an image that
      matches its reference at every zero vector gets only zero vectors and no energy. */
  lemma TotalEnergyBounds(d: PixelDistance, width: int, height: int, blocks: seq<Coord>)
    ensures 0 <= TotalEnergy(d, width, height, blocks) <= ZeroTotal(d, blocks)
    ensures ZeroTotal(d, blocks) == 0 ==>
      TotalEnergy(d, width, height, blocks) == 0
      && forall k | 0 <= k < |blocks| :: Outcomes(d, width, height, blocks)[k].vec == Coord(0, 0)
  {
    EnergySumBounds((c: Coord) => OutcomeAt(d, width, height, c), d, width, height, blocks);
  }

  lemma {:induction false} ZeroTotalNonNegative(d: PixelDistance, blocks: seq<Coord>)
    ensures ZeroTotal(d, blocks) >= 0
  {
    if |blocks| > 0 {
      ZeroTotalNonNegative(d, blocks[..|blocks| - 1]);
    }
  }

  lemma RowStep(rowStart: seq<Coord>, y: int, left: int, x: int)
    requires left <= x
    ensures rowStart + RowCoords(y, left, x + 1) == rowStart + RowCoords(y, left, x) + [Coord(x, y)]
  {
  }

  lemma WindowRowsStep(r: Range, y: int)
    requires r.up <= y
    ensures WindowRows(r, y + 1) == WindowRows(r, y) + RowCoords(y, r.left, r.right + 1)
  {
  }

  /** One step of a search with a limited measure e of candidate c: exact below the
      current best, and not below it otherwise. The step decides as the exact one would. */
  lemma LimitedStep(visited: seq<Coord>, c: Coord, start: Best, energy: Coord -> int, e: int)
    requires var limit := ScanMin(visited, start, energy).energy;
      if energy(c) < limit then e == energy(c) else e >= limit
    ensures ScanMin(visited + [c], start, energy)
            == if e < ScanMin(visited, start, energy).energy then Best(c, e)
               else ScanMin(visited, start, energy)
  {
    ScanMinAppend(visited, c, start, energy);
  }

  /** One step of the full search: the limited measure decides as the exact one would. */
  lemma FullStep(d: PixelDistance, n: int, m: int, visited: seq<Coord>, c: Coord, start: Best, e: int)
    requires LimitedMeasuresAgree(d)
    requires e == d.tsdLessThan(n, m, n + c.x, m + c.y, ScanMin(visited, start, FullEnergy(d, n, m)).energy)
    ensures ScanMin(visited + [c], start, FullEnergy(d, n, m))
            == if e < ScanMin(visited, start, FullEnergy(d, n, m)).energy then Best(c, e)
               else ScanMin(visited, start, FullEnergy(d, n, m))
  {
    assert FullEnergy(d, n, m)(c) == d.tsd(n, m, n + c.x, m + c.y);
    LimitedStep(visited, c, start, FullEnergy(d, n, m), e);
  }

  /** One step of the half-pel search: the limited measure decides as the exact one would. */
  lemma HalfStep(d: PixelDistance, n: int, m: int, v: Coord, visited: seq<Coord>, c: Coord, start: Best, e: int)
    requires LimitedMeasuresAgree(d)
    requires e == d.halfTsdLessThan(n, m, n + v.x, m + v.y, c.x, c.y, ScanMin(visited, start, HalfEnergy(d, n, m, v)).energy)
    ensures ScanMin(visited + [c], start, HalfEnergy(d, n, m, v))
            == if e < ScanMin(visited, start, HalfEnergy(d, n, m, v)).energy then Best(c, e)
               else ScanMin(visited, start, HalfEnergy(d, n, m, v))
  {
    assert HalfEnergy(d, n, m, v)(c) == d.halfTsd(n, m, n + v.x, m + v.y, c.x, c.y);
    LimitedStep(visited, c, start, HalfEnergy(d, n, m, v), e);
  }

  lemma TakeStep<T>(s: seq<T>, k: nat)
    requires k < |s|
    ensures s[..k + 1] == s[..k] + [s[k]]
  {
  }

  lemma OutcomesByAppend(f: Coord -> Outcome, blocks: seq<Coord>, c: Coord)
    ensures OutcomesBy(f, blocks + [c]) == OutcomesBy(f, blocks) + [f(c)]
  {
    assert (blocks + [c])[..|blocks|] == blocks;
  }

  lemma EnergySumAppend(outs: seq<Outcome>, o: Outcome)
    ensures EnergySum(outs + [o]) == EnergySum(outs) + o.energy
  {
    assert (outs + [o])[..|outs|] == outs;
  }

  lemma StoredVectorsAppend(outs: seq<Outcome>, o: Outcome)
    ensures StoredVectors(outs + [o]) == StoredVectors(outs) + [StoredVector(o.vec)]
  {
    assert (outs + [o])[..|outs|] == outs;
  }

  /** One block of the estimate loop: its energy joins the total, and its vector joins the
      written prefix of the list while positions remain. */
  lemma RecordStep(outs: seq<Outcome>, o: Outcome, pos: nat, maxLength: nat,
                   initial: seq<Vec2>, prior: seq<Vec2>, after: seq<Vec2>)
    requires pos == Min(|outs|, maxLength) && |initial| == maxLength
    requires prior == StoredVectors(outs)[..pos] + initial[pos..]
    requires pos < maxLength ==> after == prior[pos := StoredVector(o.vec)]
    requires pos >= maxLength ==> after == prior
    ensures EnergySum(outs + [o]) == EnergySum(outs) + o.energy
    ensures var next := if pos < maxLength then pos + 1 else pos;
      next == Min(|outs + [o]|, maxLength)
      && after == StoredVectors(outs + [o])[..next] + initial[next..]
  {
    EnergySumAppend(outs, o);
    StoredVectorsAppend(outs, o);
    var done := StoredVectors(outs);
    if pos < maxLength {
      assert pos == |done| && done[..pos] == done;
      assert after == (done + [StoredVector(o.vec)]) + initial[pos + 1..];
    } else {
      assert (done + [StoredVector(o.vec)])[..pos] == done[..pos];
    }
  }

  /** Setting element 0 and then element 1 of one position stores the whole vector. */
  lemma BothElements(prior: seq<Vec2>, half: seq<Vec2>, after: seq<Vec2>, pos: nat, v: Coord)
    requires pos < |prior|
    requires half == prior[pos := WithElement(prior[pos], 0, v.x)]
    requires after == half[pos := WithElement(half[pos], 1, v.y)]
    ensures after == prior[pos := StoredVector(v)]
  {
    assert after[pos] == StoredVector(v);
  }

  lemma BlockGridStep(across: nat, j: nat)
    ensures BlockGrid(across, j + 1) == BlockGrid(across, j) + BlockRow(across, j)
  {
  }

  lemma BlockRowStep(before: seq<Coord>, i: nat, j: nat)
    ensures before + BlockRow(i + 1, j) == before + BlockRow(i, j) + [Coord(16 * i, 16 * j)]
  {
  }

  class MotionEstimator {
    /** The input and reference images, seen only through their block distances
        (`_pInput`, `_pRef` and their overlays). */
    const pixels: PixelDistance
    /** `_imgWidth`, `_imgHeight`. */
    const width: nat
    const height: nat
    /** `_ready`: 1 after a successful Create. */
    var ready: int
    /** `_pMotionVectorStruct`: the vector list, or null before Create. */
    var vectors: VectorStructList?

    ghost predicate Valid()
      reads this, vectors, if vectors != null then {vectors.complexData} else {}
    {
      LimitedMeasuresAgree(pixels)
      && (ready == 1 <==> vectors != null)
      && (vectors != null ==>
            vectors.Valid() && vectors.kind == Simple2D && vectors.simpleData != null)
    }

    /** Records the images and their size; allocates nothing. */
    constructor (pixels: PixelDistance, width: nat, height: nat)
      requires LimitedMeasuresAgree(pixels)
      ensures Valid()
      ensures this.pixels == pixels && this.width == width && this.height == height
      ensures ready == 0 && vectors == null
    {
      this.pixels := pixels;
      this.width := width;
      this.height := height;
      ready := 0;
      vectors := null;
    }

    /** Drops the vector list and marks the estimator not ready. */
    method Destroy()
      requires Valid()
      modifies this
      ensures Valid() && ready == 0 && vectors == null
    {
      ready := 0;
      vectors := null;
    }

    /** Replaces the vector list with a new simple list of one vector per whole block and
        marks the estimator ready. */
    method Create() returns (ok: int)
      requires Valid()
      modifies this
      ensures Valid() && ok == 1 && ready == 1
      ensures vectors != null && fresh(vectors) && fresh(vectors.simpleData)
      ensures vectors.GetLength() == NumVectors(width, height)
    {
      Destroy();
      var list := new VectorStructList(Simple2D, 2, 1);
      var numVecs := (width / BlockSize) * (height / BlockSize);
      // A simple list with a non-negative length always gets its storage.
      var _ := list.SetLength(numVecs);
      vectors := list;
      ready := 1;
      ok := 1;
    }

    /** The full-pel search loops for the block at (n, m), starting from the zero vector
        at the zero-vector energy. */
    method FullPelSearch(n: int, m: int, zeroVecEnergy: int) returns (best: Best)
      requires LimitedMeasuresAgree(pixels)
      requires zeroVecEnergy == ZeroEnergy(pixels, n, m)
      ensures best == FullPelBest(pixels, width, height, n, m)
    {
      var r := GetMotionRange(n, m, width, height);
      best := FullPelScan(n, m, r, zeroVecEnergy);
    }

    /** The two loops of the full-pel search over window r: rows from the top, each row
        from the left, starting from the zero vector at zeroVecEnergy. */
    method FullPelScan(n: int, m: int, r: Range, zeroVecEnergy: int) returns (best: Best)
      requires LimitedMeasuresAgree(pixels)
      requires r.up <= r.down + 1 && r.left <= r.right + 1
      ensures best == ScanMin(Window(r), Best(Coord(0, 0), zeroVecEnergy), FullEnergy(pixels, n, m))
    {
      ghost var start := Best(Coord(0, 0), zeroVecEnergy);
      var minEnergy := zeroVecEnergy;
      var mx, my := 0, 0;
      ghost var visited: seq<Coord> := [];
      var y := r.up;
      while y <= r.down
        invariant r.up <= y <= r.down + 1
        invariant visited == WindowRows(r, y)
        invariant Best(Coord(mx, my), minEnergy) == ScanMin(visited, start, FullEnergy(pixels, n, m))
      {
        minEnergy, mx, my := FullPelRow(n, m, r.left, r.right, y, minEnergy, mx, my, start, visited);
        visited := visited + RowCoords(y, r.left, r.right + 1);
        WindowRowsStep(r, y);
        y := y + 1;
      }
      best := Best(Coord(mx, my), minEnergy);
    }

    /** The inner loop of the full-pel search: row y of the window, left to right. Given the
        best of the candidates visited so far (rowStart), it ends with the best of those and
        the whole row. */
    method FullPelRow(n: int, m: int, left: int, right: int, y: int, minEnergy0: int, mx0: int, my0: int,
                      ghost start: Best, ghost rowStart: seq<Coord>)
      returns (minEnergy: int, mx: int, my: int)
      requires LimitedMeasuresAgree(pixels) && left <= right + 1
      requires Best(Coord(mx0, my0), minEnergy0) == ScanMin(rowStart, start, FullEnergy(pixels, n, m))
      ensures Best(Coord(mx, my), minEnergy)
              == ScanMin(rowStart + RowCoords(y, left, right + 1), start, FullEnergy(pixels, n, m))
    {
      minEnergy, mx, my := minEnergy0, mx0, my0;
      ghost var visited := rowStart;
      var x := left;
      while x <= right
        invariant left <= x <= right + 1
        invariant visited == rowStart + RowCoords(y, left, x)
        invariant Best(Coord(mx, my), minEnergy) == ScanMin(visited, start, FullEnergy(pixels, n, m))
      {
        var vecEnergy := pixels.tsdLessThan(n, m, n + x, m + y, minEnergy);
        FullStep(pixels, n, m, visited, Coord(x, y), start, vecEnergy);
        if vecEnergy < minEnergy {
          minEnergy := vecEnergy;
          mx := x;
          my := y;
        }
        RowStep(rowStart, y, left, x);
        visited := visited + [Coord(x, y)];
        x := x + 1;
      }
    }

    /** The half-pel search around full-pel winner `full` of the block at (n, m). */
    method HalfPelSearch(n: int, m: int, full: Best) returns (best: Best)
      requires LimitedMeasuresAgree(pixels)
      requires full.energy >= 0
      ensures best == HalfPelBest(pixels, width, height, n, m, full)
    {
      var s := GetHalfPelSearchStruct(n + full.pos.x, m + full.pos.y, full.pos.x, full.pos.y, width, height);
      best := HalfPelScan(n, m, full, s);
    }

    /** The half-pel loop: the first s.len offsets of the catalogue in order, starting from
        offset (0, 0) at the full-pel energy. */
    method HalfPelScan(n: int, m: int, full: Best, s: HalfPelSearch) returns (best: Best)
      requires LimitedMeasuresAgree(pixels)
      requires s.len <= |s.table|
      ensures best == ScanMin(Offsets(s), Best(Coord(0, 0), full.energy), HalfEnergy(pixels, n, m, full.pos))
    {
      ghost var start := Best(Coord(0, 0), full.energy);
      ghost var energy := HalfEnergy(pixels, n, m, full.pos);
      var minEnergy := full.energy;
      var hmx, hmy := 0, 0;
      var k := 0;
      ghost var visited: seq<Coord> := [];
      while k < s.len
        invariant 0 <= k <= s.len
        invariant visited == s.table[..k]
        invariant Best(Coord(hmx, hmy), minEnergy) == ScanMin(visited, start, energy)
      {
        var h := s.table[k];
        var vecEnergy := pixels.halfTsdLessThan(n, m, n + full.pos.x, m + full.pos.y, h.x, h.y, minEnergy);
        HalfStep(pixels, n, m, full.pos, visited, h, start, vecEnergy);
        if vecEnergy < minEnergy {
          minEnergy := vecEnergy;
          hmx := h.x;
          hmy := h.y;
        }
        TakeStep(s.table, k);
        visited := visited + [h];
        k := k + 1;
      }
      assert s.table[..s.len] == Offsets(s);
      best := Best(Coord(hmx, hmy), minEnergy);
    }

    /** The body of the block loop for the block at (n, m): the zero-vector energy, the
        full-pel search, the half-pel search around its winner, and the decision. */
    method EstimateBlock(n: int, m: int) returns (outcome: Outcome)
      requires LimitedMeasuresAgree(pixels)
      ensures outcome == BlockOutcome(pixels, width, height, n, m)
    {
      var zeroVecEnergy := pixels.tsd(n, m, n, m);
      var full := FullPelSearch(n, m, zeroVecEnergy);
      var half := HalfPelSearch(n, m, full);
      outcome := DecideVector(zeroVecEnergy, full.pos, half);
    }

    /** The end of the block loop body: the vector in half-pel units with each component
        clamped, the three weight tests, and the choice between the vector and the zero
        vector. */
    method DecideVector(zeroVecEnergy: int, full: Coord, half: Best) returns (outcome: Outcome)
      ensures outcome == Decide(zeroVecEnergy, half.energy, ComposeVector(full, half.pos))
    {
      var minEnergy := half.energy;
      var mvx := 2 * full.x + half.pos.x;
      var mvy := 2 * full.y + half.pos.y;
      if mvx < MinVector {
        mvx := MinVector;
      } else if mvx > MaxVector {
        mvx := MaxVector;
      }
      if mvy < MinVector {
        mvy := MinVector;
      } else if mvy > MaxVector {
        mvy := MaxVector;
      }

      var weight := 0;
      var diffWithZeroEnergy := zeroVecEnergy - minEnergy;
      var magSqr := mvx * mvx + mvy * mvy;
      // An arithmetic shift right by 2 is floor division by 4, which `/` is for a positive divisor.
      if diffWithZeroEnergy / 4 < magSqr {
        weight := weight + 1;
      }
      if zeroVecEnergy < NoiseFloor {
        weight := weight + 1;
      }
      if diffWithZeroEnergy * 10 < minEnergy {
        weight := weight + 1;
      }

      if minEnergy < zeroVecEnergy && weight < 2 {
        outcome := Outcome(Coord(mvx, mvy), minEnergy);
      } else {
        outcome := Outcome(Coord(0, 0), zeroVecEnergy);
      }
    }

    /** Estimates every block in raster order. The vector of the k-th block goes to list
        position k while positions remain; the rest of the list is left alone. Every block's
        energy counts towards the total, and the result is the total divided by the list
        length. */
    method Estimate() returns (avgDistortion: int)
      requires Valid() && ready == 1 && vectors.GetLength() > 0
      modifies vectors.simpleData
      ensures Valid()
      ensures var outs := Outcomes(pixels, width, height, Blocks(width, height));
        var written := Min(|outs|, vectors.GetLength());
        vectors.simpleData[..] == StoredVectors(outs)[..written] + old(vectors.simpleData[..])[written..]
      ensures avgDistortion == TotalEnergy(pixels, width, height, Blocks(width, height)) / vectors.GetLength()
    {
      ghost var f := (c: Coord) => OutcomeAt(pixels, width, height, c);
      var maxLength := vectors.GetLength();
      ghost var initial := vectors.simpleData[..];
      var vecPos, totalEnergy, outs := EstimateAllBlocks(f, initial);
      OutcomesByModel(f, pixels, width, height, Blocks(width, height));
      avgDistortion := totalEnergy / maxLength;
    }

    /** The two loops of the estimate: block rows top to bottom, blocks left to right. */
    method EstimateAllBlocks(ghost f: Coord -> Outcome, ghost initial: seq<Vec2>)
      returns (vecPos: int, totalEnergy: int, ghost outs: seq<Outcome>)
      requires Valid() && ready == 1 && Models(f, pixels, width, height)
      requires Recorded(f, [], [], 0, 0, initial)
      modifies vectors.simpleData
      ensures Valid() && ready == 1
      ensures Recorded(f, Blocks(width, height), outs, vecPos, totalEnergy, initial)
    {
      vecPos := 0;
      totalEnergy := 0;
      ghost var rows := CeilBlocks(height);
      ghost var visited: seq<Coord> := [];
      outs := [];

      var m := 0;
      ghost var j := 0;
      while m < height
        invariant 0 <= j <= rows && m == 16 * j
        invariant visited == BlockGrid(CeilBlocks(width), j)
        invariant Valid() && ready == 1
        invariant Recorded(f, visited, outs, vecPos, totalEnergy, initial)
      {
        CeilBlocksCounts(height, j);
        BlockGridStep(CeilBlocks(width), j);
        vecPos, totalEnergy, visited, outs := EstimateRow(f, m, j, vecPos, totalEnergy, visited, outs, initial);
        m := m + BlockSize;
        j := j + 1;
      }
      CeilBlocksCounts(height, j);
      assert j == rows;
    }

    /** What the estimate loop keeps after visiting some blocks: their outcomes under f, the
        total of their energies, and the list holding their vectors in its first positions
        (as many as fit) and its initial contents in the rest. */
    ghost predicate Recorded(f: Coord -> Outcome, visited: seq<Coord>, outs: seq<Outcome>,
                             vecPos: int, totalEnergy: int, initial: seq<Vec2>)
      reads this, vectors, if vectors != null then {vectors.complexData, vectors.simpleData} else {}
    {
      vectors != null && vectors.Valid() && vectors.simpleData != null
      && outs == OutcomesBy(f, visited)
      && totalEnergy == EnergySum(outs)
      && vecPos == Min(|outs|, vectors.GetLength())
      && |initial| == vectors.GetLength()
      && vectors.simpleData[..] == StoredVectors(outs)[..vecPos] + initial[vecPos..]
    }

    /** One pass of the inner loop of the estimate: the blocks of block row j, left to
        right. */
    method EstimateRow(ghost f: Coord -> Outcome, m: int, ghost j: nat, vecPos0: int, totalEnergy0: int,
                       ghost visited0: seq<Coord>, ghost outs0: seq<Outcome>, ghost initial: seq<Vec2>)
      returns (vecPos: int, totalEnergy: int, ghost visited: seq<Coord>, ghost outs: seq<Outcome>)
      requires Valid() && ready == 1 && m == 16 * j && Models(f, pixels, width, height)
      requires Recorded(f, visited0, outs0, vecPos0, totalEnergy0, initial)
      modifies vectors.simpleData
      ensures Valid() && ready == 1
      ensures visited == visited0 + BlockRow(CeilBlocks(width), j)
      ensures Recorded(f, visited, outs, vecPos, totalEnergy, initial)
    {
      ghost var across := CeilBlocks(width);
      vecPos, totalEnergy, visited, outs := vecPos0, totalEnergy0, visited0, outs0;
      var n := 0;
      ghost var i := 0;
      while n < width
        invariant 0 <= i <= across && n == 16 * i
        invariant visited == visited0 + BlockRow(i, j)
        invariant Valid() && ready == 1
        invariant Recorded(f, visited, outs, vecPos, totalEnergy, initial)
      {
        CeilBlocksCounts(width, i);
        BlockRowStep(visited0, i, j);
        vecPos, totalEnergy, visited, outs := EstimateAndStore(f, n, m, vecPos, totalEnergy, visited, outs, initial);
        n := n + BlockSize;
        i := i + 1;
      }
      CeilBlocksCounts(width, i);
      assert i == across;
    }

    /** EstimateBlock, with its result named through a function that models the
        estimator. */
    method EstimateModelled(ghost f: Coord -> Outcome, n: int, m: int) returns (outcome: Outcome)
      requires Valid() && Models(f, pixels, width, height)
      ensures outcome == f(Coord(n, m))
    {
      outcome := EstimateBlock(n, m);
      ModelAt(f, pixels, width, height, Coord(n, m), outcome);
    }

    /** The body of the inner loop of the estimate for the block at (n, m): its outcome's
        energy joins the total, and its vector goes to the next list position if one
        remains. */
    method EstimateAndStore(ghost f: Coord -> Outcome, n: int, m: int, vecPos0: int, totalEnergy0: int,
                            ghost visited0: seq<Coord>, ghost outs0: seq<Outcome>, ghost initial: seq<Vec2>)
      returns (vecPos: int, totalEnergy: int, ghost visited: seq<Coord>, ghost outs: seq<Outcome>)
      requires Valid() && ready == 1 && Models(f, pixels, width, height)
      requires Recorded(f, visited0, outs0, vecPos0, totalEnergy0, initial)
      modifies vectors.simpleData
      ensures Valid() && ready == 1
      ensures visited == visited0 + [Coord(n, m)]
      ensures Recorded(f, visited, outs, vecPos, totalEnergy, initial)
    {
      var list := vectors;
      var maxLength := list.GetLength();
      var outcome := EstimateModelled(f, n, m);
      OutcomesByAppend(f, visited0, Coord(n, m));
      ghost var prior := list.simpleData[..];
      vecPos := vecPos0;
      totalEnergy := totalEnergy0 + outcome.energy;
      if vecPos < maxLength {
        list.SetSimpleElement(vecPos, 0, outcome.vec.x);
        ghost var half := list.simpleData[..];
        list.SetSimpleElement(vecPos, 1, outcome.vec.y);
        BothElements(prior, half, list.simpleData[..], vecPos0, outcome.vec);
        vecPos := vecPos + 1;
      }
      RecordStep(outs0, outcome, vecPos0, maxLength, initial, prior, list.simpleData[..]);
      visited := visited0 + [Coord(n, m)];
      outs := outs0 + [outcome];
    }
  }
}
