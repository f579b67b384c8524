/** The search rules of the H.263 block motion estimator: the full-pel window a block may
    search, the half-pel neighbours it may refine into, the strict-minimum scan both searches
    use, and the rule that turns the winning energies into the block's motion vector. The
    estimator itself, which runs these over the image, is in MotionEstimation. */
module MotionSearch {

  /** `_motionRange`: full-pel vectors reach 16 pels left or up and 15 right or down. */
  const MotionRange: int := 16
  /** `_macroBlkWidth`, `_macroBlkHeight`. */
  const BlockSize: int := 16
  /** `MEH263IS_FULL_MOTION_NOISE_FLOOR`: zero-vector energies below it count as noise. */
  const NoiseFloor: int := 512
  /** Half-pel vector components are clamped to [MinVector, MaxVector], the range
      [-16, 15.5] pels of clause 4.2.3 of ITU-T Recommendation H.263. */
  const MinVector: int := -32
  const MaxVector: int := 31

  /** `MEH263IS_COORD`: a motion vector or a half-pel offset. */
  datatype Coord = Coord(x: int, y: int)

  // The half-pel neighbour catalogues, one per combination of allowed directions.
  const HalfPos: seq<Coord> :=
    [Coord(-1, -1), Coord(0, -1), Coord(1, -1), Coord(-1, 0), Coord(1, 0), Coord(-1, 1), Coord(0, 1), Coord(1, 1)]
  const TopLeftHalfPos: seq<Coord> := [Coord(1, 0), Coord(0, 1), Coord(1, 1)]
  const TopRightHalfPos: seq<Coord> := [Coord(-1, 0), Coord(-1, 1), Coord(0, 1)]
  const BottomLeftHalfPos: seq<Coord> := [Coord(0, -1), Coord(1, -1), Coord(1, 0)]
  const BottomRightHalfPos: seq<Coord> := [Coord(-1, -1), Coord(0, -1), Coord(-1, 0)]
  const LeftHalfPos: seq<Coord> := [Coord(0, -1), Coord(1, -1), Coord(1, 0), Coord(0, 1), Coord(1, 1)]
  const RightHalfPos: seq<Coord> := [Coord(-1, -1), Coord(0, -1), Coord(-1, 0), Coord(-1, 1), Coord(0, 1)]
  const TopHalfPos: seq<Coord> := [Coord(-1, 0), Coord(1, 0), Coord(-1, 1), Coord(0, 1), Coord(1, 1)]
  const BottomHalfPos: seq<Coord> := [Coord(-1, -1), Coord(0, -1), Coord(1, -1), Coord(-1, 0), Coord(1, 0)]
  const LeftRightHalfPos: seq<Coord> := [Coord(-1, 0), Coord(1, 0)]
  const UpDownHalfPos: seq<Coord> := [Coord(0, -1), Coord(0, 1)]
  const LeftOnlyHalfPos: seq<Coord> := [Coord(-1, 0)]
  const RightOnlyHalfPos: seq<Coord> := [Coord(1, 0)]
  const UpOnlyHalfPos: seq<Coord> := [Coord(0, -1)]
  const DownOnlyHalfPos: seq<Coord> := [Coord(0, 1)]

  /** The full-pel search window of a block: vector x in [left, right], y in [up, down]. */
  datatype Range = Range(left: int, right: int, up: int, down: int)

  /** The window of the block at (x, y): the whole [-16, 15] range on each side where the
      image extends at least a motion range beyond the block origin, and nothing on that
      side otherwise. */
  function GetMotionRange(x: int, y: int, width: int, height: int): (r: Range)
    ensures r.left == -MotionRange <==> x >= MotionRange
    ensures r.left == 0 <==> x < MotionRange
    ensures r.right == MotionRange - 1 <==> x + MotionRange < width
    ensures r.right == 0 <==> x + MotionRange >= width
    ensures r.up == -MotionRange <==> y >= MotionRange
    ensures r.up == 0 <==> y < MotionRange
    ensures r.down == MotionRange - 1 <==> y + MotionRange < height
    ensures r.down == 0 <==> y + MotionRange >= height
    ensures -MotionRange <= r.left <= 0 <= r.right <= MotionRange - 1
    ensures -MotionRange <= r.up <= 0 <= r.down <= MotionRange - 1
  {
    var left := if x - MotionRange >= 0 then -MotionRange else 0;
    var right := if x + MotionRange < width then MotionRange - 1 else 0;
    var up := if y - MotionRange >= 0 then -MotionRange else 0;
    var down := if y + MotionRange < height then MotionRange - 1 else 0;
    Range(left, right, up, down)
  }

  /** The vectors (dx, dy) of row y, dx running from left up to x - 1. */
  function RowCoords(y: int, left: int, x: int): seq<Coord>
    decreases x - left
  {
    if x <= left then [] else RowCoords(y, left, x - 1) + [Coord(x - 1, y)]
  }

  /** The rows r.up .. y - 1 of the window, each from r.left to r.right. */
  function WindowRows(r: Range, y: int): seq<Coord>
    decreases y - r.up
  {
    if y <= r.up then [] else WindowRows(r, y - 1) + RowCoords(y - 1, r.left, r.right + 1)
  }

  /** Every vector of the window in the order the full search visits them: row by row from
      the top, each row from the left. */
  function Window(r: Range): seq<Coord>
  {
    WindowRows(r, r.down + 1)
  }

  lemma {:induction false} RowCoordsMembers(y: int, left: int, x: int)
    ensures forall c :: c in RowCoords(y, left, x) <==> c.y == y && left <= c.x < x
    decreases x - left
  {
    if x > left {
      RowCoordsMembers(y, left, x - 1);
    }
  }

  lemma {:induction false} WindowRowsMembers(r: Range, y: int)
    ensures forall c :: c in WindowRows(r, y) <==> r.up <= c.y < y && r.left <= c.x <= r.right
    decreases y - r.up
  {
    if y > r.up {
      WindowRowsMembers(r, y - 1);
      RowCoordsMembers(y - 1, r.left, r.right + 1);
    }
  }

  /** The window holds exactly the vectors within its four bounds. */
  lemma WindowMembers(r: Range)
    ensures forall c :: c in Window(r) <==> r.left <= c.x <= r.right && r.up <= c.y <= r.down
  {
    WindowRowsMembers(r, r.down + 1);
  }

  /** For an image whose sides are multiples of 16, every full-pel candidate of a block
      whose origin is a multiple of 16 inside the image lies wholly inside the image. */
  lemma FullPelCandidatesInside(n: int, m: int, width: int, height: int, c: Coord)
    requires width % BlockSize == 0 && height % BlockSize == 0
    requires n % BlockSize == 0 && m % BlockSize == 0
    requires 0 <= n < width && 0 <= m < height
    requires c in Window(GetMotionRange(n, m, width, height))
    ensures 0 <= n + c.x && n + c.x + BlockSize <= width
    ensures 0 <= m + c.y && m + c.y + BlockSize <= height
  {
    WindowMembers(GetMotionRange(n, m, width, height));
    AlignedBlockFits(n, width);
    AlignedBlockFits(m, height);
    if n + MotionRange < width {
      AlignedBlockFits(n + BlockSize, width);
    }
    if m + MotionRange < height {
      AlignedBlockFits(m + BlockSize, height);
    }
  }

  lemma AlignedBlockFits(n: int, width: int)
    requires width % BlockSize == 0 && n % BlockSize == 0 && 0 <= n < width
    ensures n + BlockSize <= width
  {
    var a, b := n / BlockSize, width / BlockSize;
    assert n == BlockSize * a && width == BlockSize * b;
    assert a < b;
  }

  /** Which half-pel directions a refinement may take. */
  datatype Allowed = Allowed(left: bool, right: bool, up: bool, down: bool)

  /** The half-pel directions open to a compensated block at (compx, compy) found with
      full-pel vector (vecx, vecy): no step out of the image, and no step further left
      or up from a vector already at the negative end of the range. */
  function HalfPelFlags(compx: int, compy: int, vecx: int, vecy: int, width: int, height: int): (a: Allowed)
    ensures !a.left <==> compx <= 0 || vecx == -MotionRange
    ensures !a.right <==> compx > 0 && compx >= width - BlockSize
    ensures !a.up <==> compy <= 0 || vecy == -MotionRange
    ensures !a.down <==> compy > 0 && compy >= height - BlockSize
  {
    var (left, right) :=
      if compx <= 0 then (false, true) else if compx >= width - BlockSize then (true, false) else (true, true);
    var (up, down) :=
      if compy <= 0 then (false, true) else if compy >= height - BlockSize then (true, false) else (true, true);
    Allowed(left && vecx != -MotionRange, right, up && vecy != -MotionRange, down)
  }

  /** A half-pel offset the flags allow: a non-zero step of at most one half pel on each
      axis, in allowed directions only. */
  predicate Admissible(c: Coord, a: Allowed)
  {
    -1 <= c.x <= 1 && -1 <= c.y <= 1 && c != Coord(0, 0)
    && (c.x == -1 ==> a.left) && (c.x == 1 ==> a.right)
    && (c.y == -1 ==> a.up) && (c.y == 1 ==> a.down)
  }

  function Count(b: bool): nat
  {
    if b then 1 else 0
  }

  /** The catalogue chosen and the number of its offsets to search. */
  datatype HalfPelSearch = HalfPelSearch(table: seq<Coord>, len: nat)

  /** The offsets the refinement visits, in catalogue order. */
  function Offsets(s: HalfPelSearch): seq<Coord>
    requires s.len <= |s.table|
  {
    s.table[..s.len]
  }

  /** The catalogue for the four flags: exactly the admissible offsets, each once, so
      (1 + left + right) * (1 + up + down) - 1 of them; with every direction closed the
      length is 0. */
  function GetHalfPelSearchStruct(compx: int, compy: int, vecx: int, vecy: int, width: int, height: int)
    : (s: HalfPelSearch)
    ensures s.len <= |s.table|
    ensures forall c :: c in Offsets(s) <==> Admissible(c, HalfPelFlags(compx, compy, vecx, vecy, width, height))
    ensures forall i, j | 0 <= i < j < s.len :: s.table[i] != s.table[j]
    ensures var a := HalfPelFlags(compx, compy, vecx, vecy, width, height);
      s.len == (1 + Count(a.left) + Count(a.right)) * (1 + Count(a.up) + Count(a.down)) - 1
  {
    var a := HalfPelFlags(compx, compy, vecx, vecy, width, height);
    CatalogueIsAdmissibleOffsets(a);
    Catalogue(a)
  }

  /** The catalogue and search length for each combination of flags, in the order the
      estimator tests them. */
  function Catalogue(a: Allowed): (s: HalfPelSearch)
    ensures s.len <= |s.table|
  {
    var (l, r, u, d) := (a.left, a.right, a.up, a.down);
    if l && r && u && d then HalfPelSearch(HalfPos, 8)
    else if l && r && !u && d then HalfPelSearch(TopHalfPos, 5)
    else if l && r && u && !d then HalfPelSearch(BottomHalfPos, 5)
    else if !l && r && u && d then HalfPelSearch(LeftHalfPos, 5)
    else if l && !r && u && d then HalfPelSearch(RightHalfPos, 5)
    else if !l && r && !u && d then HalfPelSearch(TopLeftHalfPos, 3)
    else if l && !r && !u && d then HalfPelSearch(TopRightHalfPos, 3)
    else if !l && r && u && !d then HalfPelSearch(BottomLeftHalfPos, 3)
    else if l && !r && u && !d then HalfPelSearch(BottomRightHalfPos, 3)
    else if l && r && !u && !d then HalfPelSearch(LeftRightHalfPos, 2)
    else if !l && !r && u && d then HalfPelSearch(UpDownHalfPos, 2)
    else if l && !r && !u && !d then HalfPelSearch(LeftOnlyHalfPos, 1)
    else if !l && r && !u && !d then HalfPelSearch(RightOnlyHalfPos, 1)
    else if !l && !r && u && !d then HalfPelSearch(UpOnlyHalfPos, 1)
    else if !l && !r && !u && d then HalfPelSearch(DownOnlyHalfPos, 1)
    else HalfPelSearch(HalfPos, 0)
  }

  /** Each catalogue lists the admissible offsets for its flags, each once. */
  lemma CatalogueIsAdmissibleOffsets(a: Allowed)
    ensures forall c :: c in Offsets(Catalogue(a)) <==> Admissible(c, a)
    ensures forall i, j | 0 <= i < j < Catalogue(a).len :: Catalogue(a).table[i] != Catalogue(a).table[j]
    ensures Catalogue(a).len == (1 + Count(a.left) + Count(a.right)) * (1 + Count(a.up) + Count(a.down)) - 1
  {
    CatalogueMembers(a);
  }

  lemma CatalogueMembers(a: Allowed)
    ensures forall c :: c in Offsets(Catalogue(a)) <==> Admissible(c, a)
  {
    if a.left {
      LeftOpenCatalogueMembers(a);
    } else {
      LeftClosedCatalogueMembers(a);
    }
  }

  lemma LeftOpenCatalogueMembers(a: Allowed)
    requires a.left
    ensures forall c :: c in Offsets(Catalogue(a)) <==> Admissible(c, a)
  {
    var s := Catalogue(a);
    match (a.right, a.up, a.down)
    case (true, true, true) =>
      assert Offsets(s) == HalfPos;
      OffsetsByEnumeration(HalfPos, a);
    case (true, true, false) =>
      assert Offsets(s) == BottomHalfPos;
      OffsetsByEnumeration(BottomHalfPos, a);
    case (true, false, true) =>
      assert Offsets(s) == TopHalfPos;
      OffsetsByEnumeration(TopHalfPos, a);
    case (true, false, false) =>
      assert Offsets(s) == LeftRightHalfPos;
      OffsetsByEnumeration(LeftRightHalfPos, a);
    case (false, true, true) =>
      assert Offsets(s) == RightHalfPos;
      OffsetsByEnumeration(RightHalfPos, a);
    case (false, true, false) =>
      assert Offsets(s) == BottomRightHalfPos;
      OffsetsByEnumeration(BottomRightHalfPos, a);
    case (false, false, true) =>
      assert Offsets(s) == TopRightHalfPos;
      OffsetsByEnumeration(TopRightHalfPos, a);
    case (false, false, false) =>
      assert Offsets(s) == LeftOnlyHalfPos;
      OffsetsByEnumeration(LeftOnlyHalfPos, a);
  }

  lemma LeftClosedCatalogueMembers(a: Allowed)
    requires !a.left
    ensures forall c :: c in Offsets(Catalogue(a)) <==> Admissible(c, a)
  {
    var s := Catalogue(a);
    match (a.right, a.up, a.down)
    case (true, true, true) =>
      assert Offsets(s) == LeftHalfPos;
      OffsetsByEnumeration(LeftHalfPos, a);
    case (true, true, false) =>
      assert Offsets(s) == BottomLeftHalfPos;
      OffsetsByEnumeration(BottomLeftHalfPos, a);
    case (true, false, true) =>
      assert Offsets(s) == TopLeftHalfPos;
      OffsetsByEnumeration(TopLeftHalfPos, a);
    case (true, false, false) =>
      assert Offsets(s) == RightOnlyHalfPos;
      OffsetsByEnumeration(RightOnlyHalfPos, a);
    case (false, true, true) =>
      assert Offsets(s) == UpDownHalfPos;
      OffsetsByEnumeration(UpDownHalfPos, a);
    case (false, true, false) =>
      assert Offsets(s) == UpOnlyHalfPos;
      OffsetsByEnumeration(UpOnlyHalfPos, a);
    case (false, false, true) =>
      assert Offsets(s) == DownOnlyHalfPos;
      OffsetsByEnumeration(DownOnlyHalfPos, a);
    case (false, false, false) =>
      assert Offsets(s) == [];
      OffsetsByEnumeration([], a);
  }

  /** A list of admissible offsets that contains every admissible point of the 3x3 grid
      holds exactly the admissible offsets. */
  lemma OffsetsByEnumeration(offsets: seq<Coord>, a: Allowed)
    requires forall i | 0 <= i < |offsets| :: Admissible(offsets[i], a)
    requires Admissible(Coord(-1, -1), a) ==> Coord(-1, -1) in offsets
    requires Admissible(Coord(0, -1), a) ==> Coord(0, -1) in offsets
    requires Admissible(Coord(1, -1), a) ==> Coord(1, -1) in offsets
    requires Admissible(Coord(-1, 0), a) ==> Coord(-1, 0) in offsets
    requires Admissible(Coord(1, 0), a) ==> Coord(1, 0) in offsets
    requires Admissible(Coord(-1, 1), a) ==> Coord(-1, 1) in offsets
    requires Admissible(Coord(0, 1), a) ==> Coord(0, 1) in offsets
    requires Admissible(Coord(1, 1), a) ==> Coord(1, 1) in offsets
    ensures forall c :: c in offsets <==> Admissible(c, a)
  {
    forall c
      ensures c in offsets <==> Admissible(c, a)
    {
      if Admissible(c, a) {
        assert c.x == -1 || c.x == 0 || c.x == 1;
        assert c.y == -1 || c.y == 0 || c.y == 1;
      }
      if c in offsets {
        var i :| 0 <= i < |offsets| && offsets[i] == c;
      }
    }
  }

  /** Inside the estimator, where the compensated origin is the block origin plus the
      full-pel vector and the block origin is inside the image, left and right are never
      both closed, so the refinement always has an offset to try. */
  lemma HalfPelSearchNeverEmpty(n: int, m: int, vecx: int, vecy: int, width: int, height: int)
    requires 0 <= n < width && 0 <= m < height
    requires vecx >= -MotionRange && vecy >= -MotionRange
    ensures GetHalfPelSearchStruct(n + vecx, m + vecy, vecx, vecy, width, height).len > 0
  {
    var a := HalfPelFlags(n + vecx, m + vecy, vecx, vecy, width, height);
    assert a.left || a.right;
  }

  /** The best vector so far and its energy. */
  datatype Best = Best(pos: Coord, energy: int)

  /** One step of a search: move to candidate c only if it is strictly better. */
  function Step(b: Best, c: Coord, energy: Coord -> int): Best
  {
    if energy(c) < b.energy then Best(c, energy(c)) else b
  }

  /** The search loops of the estimator: candidates visited in order from a starting best,
      replacing it only on a strictly smaller energy. */
  function ScanMin(cands: seq<Coord>, start: Best, energy: Coord -> int): Best
    decreases |cands|
  {
    if |cands| == 0 then start
    else Step(ScanMin(cands[..|cands| - 1], start, energy), cands[|cands| - 1], energy)
  }

  lemma ScanMinAppend(cands: seq<Coord>, c: Coord, start: Best, energy: Coord -> int)
    ensures ScanMin(cands + [c], start, energy) == Step(ScanMin(cands, start, energy), c, energy)
  {
    assert (cands + [c])[..|cands|] == cands;
  }

  /** Candidate k is the first of the candidates with the least energy, and beats start. */
  ghost predicate FirstMinimumAt(cands: seq<Coord>, start: Best, energy: Coord -> int, k: int)
  {
    0 <= k < |cands| && energy(cands[k]) < start.energy
    && (forall j | 0 <= j < k :: energy(cands[j]) > energy(cands[k]))
    && (forall j | k <= j < |cands| :: energy(cands[j]) >= energy(cands[k]))
  }

  /** The scan ends at the least energy of all candidates and start; it moves off start only
      to the first candidate of strictly smaller least energy. */
  lemma {:induction false} ScanMinIsFirstMinimum(cands: seq<Coord>, start: Best, energy: Coord -> int)
    ensures ScanMin(cands, start, energy).energy <= start.energy
    ensures forall j | 0 <= j < |cands| :: ScanMin(cands, start, energy).energy <= energy(cands[j])
    ensures ScanMin(cands, start, energy) == start
            || exists k :: FirstMinimumAt(cands, start, energy, k)
                           && ScanMin(cands, start, energy) == Best(cands[k], energy(cands[k]))
    decreases |cands|
  {
    if |cands| > 0 {
      var prefix := cands[..|cands| - 1];
      var c := cands[|cands| - 1];
      ScanMinIsFirstMinimum(prefix, start, energy);
      var b := ScanMin(prefix, start, energy);
      if energy(c) < b.energy {
        assert FirstMinimumAt(cands, start, energy, |cands| - 1);
      } else if b != start {
        var k :| FirstMinimumAt(prefix, start, energy, k) && b == Best(prefix[k], energy(prefix[k]));
        assert FirstMinimumAt(cands, start, energy, k);
      }
    }
  }

  /** The energy of full-pel vector c for the block at (n, m). */
  function FullEnergy(d: PixelDistance, n: int, m: int): Coord -> int
  {
    (c: Coord) => d.tsd(n, m, n + c.x, m + c.y)
  }

  /** The energy of half-pel offset c around the full-pel winner v of the block at (n, m). */
  function HalfEnergy(d: PixelDistance, n: int, m: int, v: Coord): Coord -> int
  {
    (c: Coord) => d.halfTsd(n, m, n + v.x, m + v.y, c.x, c.y)
  }

  /** The pixel comparisons of the image overlays, which this model leaves abstract:
      - tsd(n, m, rx, ry): total squared difference between the input block at (n, m) and
        the reference block at (rx, ry);
      - halfTsd(n, m, rx, ry, hx, hy): the same against the reference block at (rx, ry)
        read at half-pel offset (hx, hy);
      - tsdLessThan and halfTsdLessThan: the same measures given a limit, allowed to stop
        early once the limit is reached. */
  datatype PixelDistance = PixelDistance(
    tsd: (int, int, int, int) -> nat,
    tsdLessThan: (int, int, int, int, int) -> int,
    halfTsd: (int, int, int, int, int, int) -> nat,
    halfTsdLessThan: (int, int, int, int, int, int, int) -> int)

  /** The limited measures are exact below the limit and at least the limit otherwise. */
  ghost predicate LimitedMeasuresAgree(d: PixelDistance)
  {
    (forall n, m, rx, ry, limit ::
       if d.tsd(n, m, rx, ry) < limit then d.tsdLessThan(n, m, rx, ry, limit) == d.tsd(n, m, rx, ry)
       else d.tsdLessThan(n, m, rx, ry, limit) >= limit)
    && (forall n, m, rx, ry, hx, hy, limit ::
          if d.halfTsd(n, m, rx, ry, hx, hy) < limit
          then d.halfTsdLessThan(n, m, rx, ry, hx, hy, limit) == d.halfTsd(n, m, rx, ry, hx, hy)
          else d.halfTsdLessThan(n, m, rx, ry, hx, hy, limit) >= limit)
  }

  /** `(v < -32) ? -32 : (v > 31) ? 31 : v`. */
  function Clamp(v: int): (r: int)
    ensures MinVector <= r <= MaxVector
    ensures MinVector <= v <= MaxVector ==> r == v
    ensures v < MinVector ==> r == MinVector
    ensures v > MaxVector ==> r == MaxVector
  {
    if v < MinVector then MinVector else if v > MaxVector then MaxVector else v
  }

  /** The motion vector of a block and the energy it adds to the total. */
  datatype Outcome = Outcome(vec: Coord, energy: int)

  /** First doubt: the energy gain over the zero vector, shifted right by 2, is below the
      squared length of the vector. (`>> 2` floors, as Dafny's `/ 4` does.) */
  predicate SmallGain(zeroEnergy: int, minEnergy: int, mv: Coord)
  {
    (zeroEnergy - minEnergy) / 4 < mv.x * mv.x + mv.y * mv.y
  }

  /** Second doubt: the zero-vector energy is below the noise floor. */
  predicate NearNoise(zeroEnergy: int)
  {
    zeroEnergy < NoiseFloor
  }

  /** Third doubt: ten times the gain is below the remaining energy. */
  predicate WeakGain(zeroEnergy: int, minEnergy: int)
  {
    (zeroEnergy - minEnergy) * 10 < minEnergy
  }

  /** How many of the three doubts about a candidate vector hold. */
  function Weight(zeroEnergy: int, minEnergy: int, mv: Coord): (w: nat)
    ensures w <= 3
    ensures w == 0 <==> !SmallGain(zeroEnergy, minEnergy, mv) && !NearNoise(zeroEnergy) && !WeakGain(zeroEnergy, minEnergy)
    ensures w == 3 <==> SmallGain(zeroEnergy, minEnergy, mv) && NearNoise(zeroEnergy) && WeakGain(zeroEnergy, minEnergy)
    ensures w >= 2 <==> (SmallGain(zeroEnergy, minEnergy, mv) && NearNoise(zeroEnergy))
                        || (SmallGain(zeroEnergy, minEnergy, mv) && WeakGain(zeroEnergy, minEnergy))
                        || (NearNoise(zeroEnergy) && WeakGain(zeroEnergy, minEnergy))
  {
    Count(SmallGain(zeroEnergy, minEnergy, mv)) + Count(NearNoise(zeroEnergy)) + Count(WeakGain(zeroEnergy, minEnergy))
  }

  /** The vector is kept exactly when it beats the zero vector and at most one doubt holds;
      otherwise the block gets the zero vector and its energy. */
  function Decide(zeroEnergy: int, minEnergy: int, mv: Coord): (o: Outcome)
    ensures minEnergy < zeroEnergy && Weight(zeroEnergy, minEnergy, mv) < 2 ==> o == Outcome(mv, minEnergy)
    ensures !(minEnergy < zeroEnergy && Weight(zeroEnergy, minEnergy, mv) < 2) ==> o == Outcome(Coord(0, 0), zeroEnergy)
    ensures o.vec != Coord(0, 0) ==> minEnergy < zeroEnergy && Weight(zeroEnergy, minEnergy, mv) < 2
    ensures minEnergy <= zeroEnergy ==> o.energy <= zeroEnergy
  {
    if minEnergy < zeroEnergy && Weight(zeroEnergy, minEnergy, mv) < 2 then Outcome(mv, minEnergy)
    else Outcome(Coord(0, 0), zeroEnergy)
  }

  /** The zero-vector energy of the block at (n, m): both overlays at the block origin. */
  function ZeroEnergy(d: PixelDistance, n: int, m: int): (e: nat)
  {
    d.tsd(n, m, n, m)
  }

  /** The full-pel search of the block at (n, m): its window from the zero vector at the
      zero-vector energy. It never ends above that energy, nor above any window vector. */
  function FullPelBest(d: PixelDistance, width: int, height: int, n: int, m: int): (b: Best)
    ensures 0 <= b.energy <= ZeroEnergy(d, n, m)
    ensures forall c | c in Window(GetMotionRange(n, m, width, height)) :: b.energy <= FullEnergy(d, n, m)(c)
  {
    var cands := Window(GetMotionRange(n, m, width, height));
    var start := Best(Coord(0, 0), ZeroEnergy(d, n, m));
    ScanMinIsFirstMinimum(cands, start, FullEnergy(d, n, m));
    ScanMinNonNegative(cands, start, FullEnergy(d, n, m));
    ScanMin(cands, start, FullEnergy(d, n, m))
  }

  /** The half-pel search around full-pel winner `full` of the block at (n, m): the
      catalogue for that position, starting from offset (0, 0) at the full-pel energy. It
      never ends above that energy, nor above any offset of the catalogue. */
  function HalfPelBest(d: PixelDistance, width: int, height: int, n: int, m: int, full: Best): (b: Best)
    requires full.energy >= 0
    ensures 0 <= b.energy <= full.energy
    ensures var s := GetHalfPelSearchStruct(n + full.pos.x, m + full.pos.y, full.pos.x, full.pos.y, width, height);
      forall c | c in Offsets(s) :: b.energy <= HalfEnergy(d, n, m, full.pos)(c)
  {
    var s := GetHalfPelSearchStruct(n + full.pos.x, m + full.pos.y, full.pos.x, full.pos.y, width, height);
    var start := Best(Coord(0, 0), full.energy);
    ScanMinIsFirstMinimum(Offsets(s), start, HalfEnergy(d, n, m, full.pos));
    ScanMinNonNegative(Offsets(s), start, HalfEnergy(d, n, m, full.pos));
    ScanMin(Offsets(s), start, HalfEnergy(d, n, m, full.pos))
  }

  /** The vector in half-pel units, `(m << 1) + h` on each axis, clamped to the H.263 range. */
  function ComposeVector(full: Coord, half: Coord): (v: Coord)
    ensures MinVector <= v.x <= MaxVector && MinVector <= v.y <= MaxVector
    ensures MinVector <= 2 * full.x + half.x <= MaxVector ==> v.x == 2 * full.x + half.x
    ensures MinVector <= 2 * full.y + half.y <= MaxVector ==> v.y == 2 * full.y + half.y
  {
    Coord(Clamp(2 * full.x + half.x), Clamp(2 * full.y + half.y))
  }

  /** What the estimator computes for the block at (n, m): the full-pel search, the
      half-pel search around its winner, the composed vector, and the decision between
      it and the zero vector. */
  function BlockOutcome(d: PixelDistance, width: int, height: int, n: int, m: int): Outcome
  {
    var full := FullPelBest(d, width, height, n, m);
    var half := HalfPelBest(d, width, height, n, m, full);
    Decide(ZeroEnergy(d, n, m), half.energy, ComposeVector(full.pos, half.pos))
  }

  /** A block never adds more than its zero-vector energy, its vector is within the clamp
      range, and a block that already matches at the zero vector keeps the zero vector. */
  lemma BlockOutcomeBounds(d: PixelDistance, width: int, height: int, n: int, m: int)
    ensures 0 <= BlockOutcome(d, width, height, n, m).energy <= ZeroEnergy(d, n, m)
    ensures MinVector <= BlockOutcome(d, width, height, n, m).vec.x <= MaxVector
    ensures MinVector <= BlockOutcome(d, width, height, n, m).vec.y <= MaxVector
    ensures ZeroEnergy(d, n, m) == 0 ==> BlockOutcome(d, width, height, n, m) == Outcome(Coord(0, 0), 0)
  {
    var full := FullPelBest(d, width, height, n, m);
    var half := HalfPelBest(d, width, height, n, m, full);
    var mv := ComposeVector(full.pos, half.pos);
    assert BlockOutcome(d, width, height, n, m) == Decide(ZeroEnergy(d, n, m), half.energy, mv);
  }

  /** With a non-negative start and non-negative energies the scan stays non-negative. */
  lemma {:induction false} ScanMinNonNegative(cands: seq<Coord>, start: Best, energy: Coord -> int)
    requires start.energy >= 0
    requires forall c :: energy(c) >= 0
    ensures ScanMin(cands, start, energy).energy >= 0
    decreases |cands|
  {
    if |cands| > 0 {
      ScanMinNonNegative(cands[..|cands| - 1], start, energy);
    }
  }
}
