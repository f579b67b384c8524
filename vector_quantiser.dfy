/** The dimension-16 vector quantiser with a 256-entry code book. Quantise searches the
    whole code book for the code vector nearest (in squared Euclidean distance) to a 16
    element input vector. It skips a code vector early in two ways: by an inequality on the
    element sums, and by abandoning a partial distance that already reaches the best
    distance so far. The model proves that neither shortcut changes the answer. */
module VectorQuantiser {
  import opened BitArith
  import opened Wrappers

  /** `VQD16I3_VECTOR_DIM`, `VQD16I3_TABLE_SIZE`. */
  const Dim: nat := 16
  const BookSize: nat := 256
  /** The starting value of the best distance in Quantise. */
  const NoDistance: int := 0x0FFFFFFF
  /** Code book entries lie strictly between -MaxEntry and MaxEntry. */
  const MaxEntry: int := 64
  /** Input vector elements lie strictly between -MaxInput and MaxInput. */
  const MaxInput: int := 2048

  /** A code book table: 256 code vectors of 16 small elements, stored row after row
      (the layout of `VQ_TABLE`). */
  predicate IsCodebookTable(t: seq<int>)
  {
    |t| == BookSize * Dim && forall i | 0 <= i < |t| :: -MaxEntry < t[i] < MaxEntry
  }

  /** An input vector the quantiser accepts: 16 elements, each small enough that the
      element sum fits in a short and no distance reaches NoDistance. */
  predicate IsInputVector(v: seq<int>)
  {
    |v| == Dim && forall i | 0 <= i < |v| :: -MaxInput < v[i] < MaxInput
  }

  /** Code vector i of the table. */
  function Row(t: seq<int>, i: nat): (r: seq<int>)
    requires IsCodebookTable(t) && i < BookSize
    ensures |r| == Dim
    ensures forall k | 0 <= k < Dim :: r[k] == t[Dim * i + k]
  {
    t[Dim * i .. Dim * i + Dim]
  }

  /** The sum of the first n elements of s. */
  function Sum(s: seq<int>, n: nat): int
    requires n <= |s|
  {
    if n == 0 then 0 else Sum(s, n - 1) + s[n - 1]
  }

  /** The sum of the first n element differences v[i] - c[i]. */
  function SumDiff(v: seq<int>, c: seq<int>, n: nat): int
    requires n <= |v| && n <= |c|
  {
    if n == 0 then 0 else SumDiff(v, c, n - 1) + (v[n - 1] - c[n - 1])
  }

  /** The squared distance over the first n elements. */
  function PartialDist(v: seq<int>, c: seq<int>, n: nat): int
    requires n <= |v| && n <= |c|
  {
    if n == 0 then 0 else PartialDist(v, c, n - 1) + (v[n - 1] - c[n - 1]) * (v[n - 1] - c[n - 1])
  }

  /** The distortion measure: the squared Euclidean distance between two vectors. */
  function Dist(v: seq<int>, c: seq<int>): int
    requires |v| == Dim && |c| == Dim
  {
    PartialDist(v, c, Dim)
  }

  /** The result of a search: a code book index and its distance. */
  datatype Match = Match(index: nat, dist: int)

  /** The exhaustive search over rows 0..n-1 that Quantise would make without its two
      shortcuts: it starts from index 0 at distance NoDistance and moves to a row only
      when that row is strictly nearer. */
  function Scan(v: seq<int>, t: seq<int>, n: nat): (m: Match)
    requires IsInputVector(v) && IsCodebookTable(t) && n <= BookSize
    ensures m.index < BookSize
    ensures n == 0 ==> m == Match(0, NoDistance)
  {
    if n == 0 then Match(0, NoDistance)
    else
      var m := Scan(v, t, n - 1);
      var d := Dist(v, Row(t, n - 1));
      if d < m.dist then Match(n - 1, d) else m
  }

  /** A squared difference is never negative. */
  lemma {:induction false} PartialDistNonNegative(v: seq<int>, c: seq<int>, n: nat)
    requires n <= |v| && n <= |c|
    ensures PartialDist(v, c, n) >= 0
  {
    if n > 0 {
      PartialDistNonNegative(v, c, n - 1);
      Square(v[n - 1] - c[n - 1]);
    }
  }

  lemma Square(x: int)
    ensures x * x >= 0
  {
  }

  /** A partial distance only grows with more elements: a partial distance that already
      reaches a bound shows the full distance does too. */
  lemma {:induction false} PartialDistMonotone(v: seq<int>, c: seq<int>, k: nat, n: nat)
    requires k <= n <= |v| && n <= |c|
    ensures PartialDist(v, c, k) <= PartialDist(v, c, n)
  {
    if k < n {
      PartialDistMonotone(v, c, k, n - 1);
      Square(v[n - 1] - c[n - 1]);
    }
  }

  /** The sum of the differences is the difference of the sums. */
  lemma {:induction false} SumDiffIsDiffOfSums(v: seq<int>, c: seq<int>, n: nat)
    requires n <= |v| && n <= |c|
    ensures SumDiff(v, c, n) == Sum(v, n) - Sum(c, n)
  {
    if n > 0 {
      SumDiffIsDiffOfSums(v, c, n - 1);
    }
  }

  /** Cauchy-Schwarz for n terms: (sum of d)^2 <= n * (sum of d^2). */
  lemma {:induction false} CauchySchwarz(v: seq<int>, c: seq<int>, n: nat)
    requires n <= |v| && n <= |c|
    ensures SumDiff(v, c, n) * SumDiff(v, c, n) <= n * PartialDist(v, c, n)
  {
    if n > 0 {
      CauchySchwarz(v, c, n - 1);
      PartialDistNonNegative(v, c, n - 1);
      CauchySchwarzStep(SumDiff(v, c, n - 1), PartialDist(v, c, n - 1), v[n - 1] - c[n - 1], n - 1);
    }
  }

  /** The inductive step of CauchySchwarz: from a^2 <= k q to (a + d)^2 <= (k + 1)(q + d^2). */
  lemma CauchySchwarzStep(a: int, q: int, d: int, k: nat)
    requires a * a <= k * q && q >= 0
    ensures (a + d) * (a + d) <= (k + 1) * (q + d * d)
  {
    // (a - k d)^2 >= 0 gives a^2 + k^2 d^2 >= 2 k a d, hence q + k d^2 >= 2 a d.
    if k > 0 {
      SquareOfDifference(a, k, d);
      Distribute(k, q, k * (d * d));
      Distribute(k, a * d, a * d);
      PositiveFactor(k, q + k * (d * d), a * d + a * d);
    } else {
      assert a * a <= 0;
      SquareOfZero(a);
    }
    SquareOfSum(a, d);
    Distribute(k + 1, q, d * d);
    Distribute(q, k, 1);
    Distribute(d * d, k, 1);
  }

  lemma SquareOfSum(x: int, y: int)
    ensures (x + y) * (x + y) == x * x + (x * y + x * y) + y * y
  {
  }

  lemma SquareOfDifference(x: int, k: int, y: int)
    ensures 0 <= (x - k * y) * (x - k * y) == x * x - (k * (x * y) + k * (x * y)) + k * (k * (y * y))
  {
  }

  lemma SquareOfZero(x: int)
    requires x * x <= 0
    ensures x == 0
  {
  }

  lemma Distribute(k: int, x: int, y: int)
    ensures k * (x + y) == k * x + k * y
  {
  }

  lemma PositiveFactor(k: int, x: int, y: int)
    requires k > 0 && k * x >= k * y
    ensures x >= y
  {
  }

  /** The sum inequality is sound: a code vector it rejects (the rounded sixteenth of
      the squared sum difference, plus a half, exceeding the best distance) is no nearer
      than the best so far. */
  lemma InequalityPrunes(v: seq<int>, c: seq<int>, best: int)
    requires |v| == Dim && |c| == Dim
    requires (8 + (Sum(v, Dim) - Sum(c, Dim)) * (Sum(v, Dim) - Sum(c, Dim))) / 16 > best
    ensures Dist(v, c) > best
  {
    SumDiffIsDiffOfSums(v, c, Dim);
    CauchySchwarz(v, c, Dim);
    var s := SumDiff(v, c, Dim);
    assert 16 * ((8 + s * s) / 16) <= 8 + s * s;
  }

  /** |Sum(s, n)| <= n * b when every element lies within [-b, b]. */
  lemma {:induction false} SumBound(s: seq<int>, n: nat, b: int)
    requires n <= |s|
    requires forall i | 0 <= i < n :: -b <= s[i] <= b
    ensures 0 <= Sum(s, n) + n * b && Sum(s, n) <= n * b
  {
    if n > 0 {
      SumBound(s, n - 1, b);
    }
  }

  /** Every partial distance between an input vector and a code vector stays far below
      NoDistance, so the first code vector is always accepted and no int overflows. */
  lemma {:induction false} PartialDistBound(v: seq<int>, c: seq<int>, n: nat)
    requires IsInputVector(v) && |c| == Dim && n <= Dim
    requires forall i | 0 <= i < Dim :: -MaxEntry < c[i] < MaxEntry
    ensures 0 <= PartialDist(v, c, n) <= n * 4460544
  {
    if n > 0 {
      PartialDistBound(v, c, n - 1);
      SquareBound(v[n - 1] - c[n - 1], 2112);
    }
  }

  lemma SquareBound(x: int, b: int)
    requires -b <= x <= b
    ensures 0 <= x * x <= b * b
  {
    var p, q := b - x, b + x;
    assert p * q >= 0;
    assert p * q == b * b - x * x;
  }

  lemma DistBelowNoDistance(v: seq<int>, t: seq<int>, i: nat)
    requires IsInputVector(v) && IsCodebookTable(t) && i < BookSize
    ensures 0 <= Dist(v, Row(t, i)) < NoDistance
  {
    PartialDistBound(v, Row(t, i), Dim);
  }

  /** The exhaustive search finds the nearest code vector among rows 0..n-1, and the
      first one when several are equally near. */
  lemma {:induction false} ScanIsNearest(v: seq<int>, t: seq<int>, n: nat)
    requires IsInputVector(v) && IsCodebookTable(t) && 1 <= n <= BookSize
    ensures Scan(v, t, n).index < n
    ensures Scan(v, t, n).dist == Dist(v, Row(t, Scan(v, t, n).index))
    ensures forall j | 0 <= j < n :: Scan(v, t, n).dist <= Dist(v, Row(t, j))
    ensures forall j | 0 <= j < Scan(v, t, n).index :: Scan(v, t, n).dist < Dist(v, Row(t, j))
  {
    DistBelowNoDistance(v, t, n - 1);
    if n > 1 {
      ScanIsNearest(v, t, n - 1);
    }
  }

  /** A code vector quantises at distortion 0 to the first row equal to it. */
  lemma CodeVectorIsExact(t: seq<int>, i: nat)
    requires IsCodebookTable(t) && i < BookSize
    ensures IsInputVector(Row(t, i))
    ensures Scan(Row(t, i), t, BookSize).dist == 0
    ensures Row(t, Scan(Row(t, i), t, BookSize).index) == Row(t, i)
    ensures forall j | 0 <= j < Scan(Row(t, i), t, BookSize).index :: Row(t, j) != Row(t, i)
  {
    var v := Row(t, i);
    ScanIsNearest(v, t, BookSize);
    var m := Scan(v, t, BookSize);
    PartialDistNonNegative(v, Row(t, m.index), Dim);
    SelfDistanceZero(v, Dim);
    ZeroDistanceIsEqual(v, Row(t, m.index), Dim);
    forall j | 0 <= j < m.index
      ensures Row(t, j) != v
    {
      if Row(t, j) == v {
        SelfDistanceZero(v, Dim);
      }
    }
  }

  /** Only equal vectors are at distance 0. */
  lemma {:induction false} ZeroDistanceIsEqual(v: seq<int>, c: seq<int>, n: nat)
    requires n <= |v| && n <= |c| && PartialDist(v, c, n) == 0
    ensures v[..n] == c[..n]
  {
    if n > 0 {
      PartialDistNonNegative(v, c, n - 1);
      Square(v[n - 1] - c[n - 1]);
      ZeroDistanceIsEqual(v, c, n - 1);
      assert v[..n] == v[..n - 1] + [v[n - 1]];
      assert c[..n] == c[..n - 1] + [c[n - 1]];
    }
  }

  lemma {:induction false} SelfDistanceZero(v: seq<int>, n: nat)
    requires n <= |v|
    ensures PartialDist(v, v, n) == 0
  {
    if n > 0 {
      SelfDistanceZero(v, n - 1);
    }
  }

  class VectorQuantiserDim16 {
    /** `VQ_TABLE`: the code book, 256 vectors of 16 elements stored row after row. */
    const vqTable: seq<int>
    /** `VQ_CODEBOOK`: where each code vector starts in the table, or null. */
    var codebook: array?<int>
    /** `VQ_SUM`: the element sum of each code vector, or null. */
    var vqSum: array?<int>

    /** The table is a code book, and each array that exists holds what Create put in it. */
    ghost predicate Valid()
      reads this, codebook, vqSum
    {
      IsCodebookTable(vqTable)
      && (codebook != null ==>
            codebook.Length == BookSize && forall i | 0 <= i < BookSize :: codebook[i] == Dim * i)
      && (vqSum != null ==>
            vqSum.Length == BookSize && forall j | 0 <= j < BookSize :: vqSum[j] == Sum(Row(vqTable, j), Dim))
    }

    /** Both arrays exist: the state after a successful Create. */
    predicate Created()
      reads this
    {
      codebook != null && vqSum != null
    }

    /** The constructor allocates nothing. */
    constructor (table: seq<int>)
      requires IsCodebookTable(table)
      ensures Valid() && vqTable == table
      ensures codebook == null && vqSum == null
    {
      vqTable := table;
      codebook := null;
      vqSum := null;
    }

    /** Builds the code vector starts and the code vector sums, each only when it does
        not exist yet, and reports success with 1. */
    method Create() returns (ok: int)
      requires Valid()
      modifies this
      ensures Valid() && Created() && ok == 1
      ensures old(codebook) != null ==> codebook == old(codebook)
      ensures old(vqSum) != null ==> vqSum == old(vqSum)
    {
      if codebook == null {
        var starts := new int[BookSize];
        var i := 0;
        while i < BookSize
          invariant 0 <= i <= BookSize
          invariant forall j | 0 <= j < i :: starts[j] == Dim * j
          invariant unchanged(this)
        {
          starts[i] := Dim * i;
          i := i + 1;
        }
        codebook := starts;
      }
      if vqSum == null {
        var starts := codebook;
        var sums := new int[BookSize];
        var j := 0;
        while j < BookSize
          invariant 0 <= j <= BookSize
          invariant forall m | 0 <= m < j :: sums[m] == Sum(Row(vqTable, m), Dim)
          invariant codebook == starts && vqSum == null && Valid()
        {
          var sum := 0;
          var k := 0;
          while k < Dim
            invariant 0 <= k <= Dim
            invariant sum == Sum(Row(vqTable, j), k)
            invariant codebook == starts && vqSum == null && Valid()
            invariant forall m | 0 <= m < j :: sums[m] == Sum(Row(vqTable, m), Dim)
          {
            SumBound(Row(vqTable, j), k + 1, MaxEntry - 1);
            sum := ToShort(sum + vqTable[starts[j] + k]);
            k := k + 1;
          }
          sums[j] := sum;
          j := j + 1;
        }
        vqSum := sums;
      }
      ok := 1;
    }

    /** Releases both arrays. */
    method Destroy()
      requires Valid()
      modifies this
      ensures Valid() && codebook == null && vqSum == null
    {
      codebook := null;
      vqSum := null;
    }

    /** The vector dimension: the length of every code vector. */
    function GetDimension(): (d: nat)
      reads this, codebook, vqSum
      requires Valid()
      ensures forall i | 0 <= i < BookSize :: |Row(vqTable, i)| == d
    {
      Dim
    }

    /** The number of code vectors: the table holds that many vectors of GetDimension()
        elements. */
    function GetCodeBookLength(): (n: nat)
      reads this, codebook, vqSum
      requires Valid()
      ensures n * GetDimension() == |vqTable|
    {
      BookSize
    }

    /** The code vector an index names, or None for an index past the code book. */
    function InverseQuantise(index: int): (r: Option<seq<int>>)
      reads this, codebook, vqSum
      requires Valid() && codebook != null && index >= 0
      ensures r.Some? <==> index < BookSize
      ensures r.Some? ==> r.value == Row(vqTable, index)
    {
      if index < BookSize then
        Some(vqTable[codebook[index] .. codebook[index] + Dim])
      else
        None
    }

    /** The index of the code vector nearest to v, the first of them on a tie, and its
        distance: the answer of the exhaustive search, although rows the sum inequality
        or a partial distance rule out are not measured in full. */
    method Quantise(v: seq<int>) returns (index: int, distortion: int)
      requires Valid() && Created() && IsInputVector(v)
      ensures 0 <= index < BookSize
      ensures Match(index, distortion) == Scan(v, vqTable, BookSize)
      ensures InverseQuantise(index).Some? && distortion == Dist(v, InverseQuantise(index).value)
      ensures forall j | 0 <= j < BookSize :: distortion <= Dist(v, Row(vqTable, j))
      ensures forall j | 0 <= j < index :: distortion < Dist(v, Row(vqTable, j))
    {
      var bestDist := NoDistance;
      var bestIndex := 0;

      var vecSum := 0;
      var i := 0;
      while i < Dim
        invariant 0 <= i <= Dim
        invariant vecSum == Sum(v, i)
      {
        SumBound(v, i + 1, MaxInput - 1);
        vecSum := ToShort(vecSum + v[i]);
        i := i + 1;
      }

      var book := 0;
      while book < BookSize
        invariant 0 <= book <= BookSize
        invariant Match(bestIndex, bestDist) == Scan(v, vqTable, book)
      {
        ghost var row := Row(vqTable, book);
        var diff := vecSum - vqSum[book];
        var inequality := (8 + diff * diff) / 16;
        if inequality > bestDist {
          InequalityPrunes(v, row, bestDist);
        } else {
          var start := codebook[book];
          var dist := 0;
          var k := 0;
          var early := false;
          while k < Dim && !early
            invariant 0 <= k <= Dim
            invariant dist == PartialDist(v, row, k)
            invariant early ==> dist >= bestDist
          {
            var x := v[k] - vqTable[start + k];
            dist := dist + x * x;
            k := k + 1;
            if k < Dim && dist >= bestDist {
              early := true;
            }
          }
          if early {
            PartialDistMonotone(v, row, k, Dim);
          } else if dist < bestDist {
            bestDist := dist;
            bestIndex := book;
          }
        }
        book := book + 1;
      }
      index := bestIndex;
      distortion := bestDist;
      ScanIsNearest(v, vqTable, BookSize);
    }
  }
}
