/** The total_zeros variable-length code for 4x4 blocks, as tabulated in
    Tables 9-7 and 9-8 of ITU-T Recommendation H.264 (03/2005), subclause 9.2.3: the
    table is indexed by (totalZeros, totalCoeffs) and holds the code length and the
    code value, written most significant bit first. */
module TotalZerosVlc {
  import opened BitArith

  /** A table entry: the code length in bits and the code value. */
  datatype VlcCode = Vlc(numBits: nat, codeWord: nat)

  /** `table[16][16]`, rows totalZeros 0..15, columns totalCoeffs 0..15. An entry with
      numBits 0 marks a symbol pair that has no code. */
  const Table: seq<seq<VlcCode>> := [
    /*  0 */ [Vlc(0, 0), Vlc(1, 1), Vlc(3, 7), Vlc(4, 5), Vlc(5, 3), Vlc(4, 5), Vlc(6, 1), Vlc(6, 1), Vlc(6, 1), Vlc(6, 1), Vlc(5, 1), Vlc(4, 0), Vlc(4, 0), Vlc(3, 0), Vlc(2, 0), Vlc(1, 0)],
    /*  1 */ [Vlc(0, 0), Vlc(3, 3), Vlc(3, 6), Vlc(3, 7), Vlc(3, 7), Vlc(4, 4), Vlc(5, 1), Vlc(5, 1), Vlc(4, 1), Vlc(6, 0), Vlc(5, 0), Vlc(4, 1), Vlc(4, 1), Vlc(3, 1), Vlc(2, 1), Vlc(1, 1)],
    /*  2 */ [Vlc(0, 0), Vlc(3, 2), Vlc(3, 5), Vlc(3, 6), Vlc(4, 5), Vlc(4, 3), Vlc(3, 7), Vlc(3, 5), Vlc(5, 1), Vlc(4, 1), Vlc(3, 1), Vlc(3, 1), Vlc(2, 1), Vlc(1, 1), Vlc(1, 1), Vlc(0, 0)],
    /*  3 */ [Vlc(0, 0), Vlc(4, 3), Vlc(3, 4), Vlc(3, 5), Vlc(4, 4), Vlc(3, 7), Vlc(3, 6), Vlc(3, 4), Vlc(3, 3), Vlc(2, 3), Vlc(2, 3), Vlc(3, 2), Vlc(1, 1), Vlc(2, 1), Vlc(0, 0), Vlc(0, 0)],
    /*  4 */ [Vlc(0, 0), Vlc(4, 2), Vlc(3, 3), Vlc(4, 4), Vlc(3, 6), Vlc(3, 6), Vlc(3, 5), Vlc(3, 3), Vlc(2, 3), Vlc(2, 2), Vlc(2, 2), Vlc(1, 1), Vlc(3, 1), Vlc(0, 0), Vlc(0, 0), Vlc(0, 0)],
    /*  5 */ [Vlc(0, 0), Vlc(5, 3), Vlc(4, 5), Vlc(4, 3), Vlc(3, 5), Vlc(3, 5), Vlc(3, 4), Vlc(2, 3), Vlc(2, 2), Vlc(3, 1), Vlc(2, 1), Vlc(3, 3), Vlc(0, 0), Vlc(0, 0), Vlc(0, 0), Vlc(0, 0)],
    /*  6 */ [Vlc(0, 0), Vlc(5, 2), Vlc(4, 4), Vlc(3, 4), Vlc(3, 4), Vlc(3, 4), Vlc(3, 3), Vlc(3, 2), Vlc(3, 2), Vlc(2, 1), Vlc(4, 1), Vlc(0, 0), Vlc(0, 0), Vlc(0, 0), Vlc(0, 0), Vlc(0, 0)],
    /*  7 */ [Vlc(0, 0), Vlc(6, 3), Vlc(4, 3), Vlc(3, 3), Vlc(4, 3), Vlc(3, 3), Vlc(3, 2), Vlc(4, 1), Vlc(3, 1), Vlc(5, 1), Vlc(0, 0), Vlc(0, 0), Vlc(0, 0), Vlc(0, 0), Vlc(0, 0), Vlc(0, 0)],
    /*  8 */ [Vlc(0, 0), Vlc(6, 2), Vlc(4, 2), Vlc(4, 2), Vlc(3, 3), Vlc(4, 2), Vlc(4, 1), Vlc(3, 1), Vlc(6, 0), Vlc(0, 0), Vlc(0, 0), Vlc(0, 0), Vlc(0, 0), Vlc(0, 0), Vlc(0, 0), Vlc(0, 0)],
    /*  9 */ [Vlc(0, 0), Vlc(7, 3), Vlc(5, 3), Vlc(5, 3), Vlc(4, 2), Vlc(5, 1), Vlc(3, 1), Vlc(6, 0), Vlc(0, 0), Vlc(0, 0), Vlc(0, 0), Vlc(0, 0), Vlc(0, 0), Vlc(0, 0), Vlc(0, 0), Vlc(0, 0)],
    /* 10 */ [Vlc(0, 0), Vlc(7, 2), Vlc(5, 2), Vlc(5, 2), Vlc(5, 2), Vlc(4, 1), Vlc(6, 0), Vlc(0, 0), Vlc(0, 0), Vlc(0, 0), Vlc(0, 0), Vlc(0, 0), Vlc(0, 0), Vlc(0, 0), Vlc(0, 0), Vlc(0, 0)],
    /* 11 */ [Vlc(0, 0), Vlc(8, 3), Vlc(6, 3), Vlc(6, 1), Vlc(5, 1), Vlc(5, 0), Vlc(0, 0), Vlc(0, 0), Vlc(0, 0), Vlc(0, 0), Vlc(0, 0), Vlc(0, 0), Vlc(0, 0), Vlc(0, 0), Vlc(0, 0), Vlc(0, 0)],
    /* 12 */ [Vlc(0, 0), Vlc(8, 2), Vlc(6, 2), Vlc(5, 1), Vlc(5, 0), Vlc(0, 0), Vlc(0, 0), Vlc(0, 0), Vlc(0, 0), Vlc(0, 0), Vlc(0, 0), Vlc(0, 0), Vlc(0, 0), Vlc(0, 0), Vlc(0, 0), Vlc(0, 0)],
    /* 13 */ [Vlc(0, 0), Vlc(9, 3), Vlc(6, 1), Vlc(6, 0), Vlc(0, 0), Vlc(0, 0), Vlc(0, 0), Vlc(0, 0), Vlc(0, 0), Vlc(0, 0), Vlc(0, 0), Vlc(0, 0), Vlc(0, 0), Vlc(0, 0), Vlc(0, 0), Vlc(0, 0)],
    /* 14 */ [Vlc(0, 0), Vlc(9, 2), Vlc(6, 0), Vlc(0, 0), Vlc(0, 0), Vlc(0, 0), Vlc(0, 0), Vlc(0, 0), Vlc(0, 0), Vlc(0, 0), Vlc(0, 0), Vlc(0, 0), Vlc(0, 0), Vlc(0, 0), Vlc(0, 0), Vlc(0, 0)],
    /* 15 */ [Vlc(0, 0), Vlc(9, 1), Vlc(0, 0), Vlc(0, 0), Vlc(0, 0), Vlc(0, 0), Vlc(0, 0), Vlc(0, 0), Vlc(0, 0), Vlc(0, 0), Vlc(0, 0), Vlc(0, 0), Vlc(0, 0), Vlc(0, 0), Vlc(0, 0), Vlc(0, 0)]
  ]

  /** 2^k for the code lengths that occur, 0..9. */
  const PowersOfTwo: seq<nat> := [1, 2, 4, 8, 16, 32, 64, 128, 256, 512]

  /** The symbol pairs a 4x4 block can produce: at least one coefficient, and no more
      than 16 coefficients and zeros together. */
  predicate IsCodedPair(totalZeros: int, totalCoeffs: int)
  {
    0 <= totalZeros && 1 <= totalCoeffs && totalZeros + totalCoeffs <= 16
  }

  /** Code a is a prefix of code b (bitwise, most significant bit first); equal codes
      count as prefixes of each other. */
  predicate IsPrefixOf(a: VlcCode, b: VlcCode)
  {
    a.numBits <= b.numBits <= 9 && b.codeWord / PowersOfTwo[b.numBits - a.numBits] == a.codeWord
  }

  /** Within one totalCoeffs column no code is a prefix of another, so a decoder that
      knows totalCoeffs identifies totalZeros from the bits alone. */
  ghost predicate PrefixFreeColumn(totalCoeffs: nat)
    requires totalCoeffs < 16
  {
    forall a, b | 0 <= a < 16 && 0 <= b < 16 && a != b
                  && IsCodedPair(a, totalCoeffs) && IsCodedPair(b, totalCoeffs)
      :: !IsPrefixOf(Table[a][totalCoeffs], Table[b][totalCoeffs])
  }

  /** The shape of every entry, checked over all 256 of them. */
  lemma EntryFacts(totalZeros: nat, totalCoeffs: nat)
    requires totalZeros < 16 && totalCoeffs < 16
    ensures |Table| == 16 && |Table[totalZeros]| == 16
    ensures Table[totalZeros][totalCoeffs].numBits > 0 <==> IsCodedPair(totalZeros, totalCoeffs)
    ensures Table[totalZeros][totalCoeffs].numBits == 0 ==> Table[totalZeros][totalCoeffs] == Vlc(0, 0)
    ensures Table[totalZeros][totalCoeffs].numBits <= 9
    ensures Table[totalZeros][totalCoeffs].codeWord < Pow2(Table[totalZeros][totalCoeffs].numBits)
  {
    if totalZeros < 8 {
      TopEntryFacts(totalZeros, totalCoeffs);
    } else {
      BottomEntryFacts(totalZeros, totalCoeffs);
    }
  }

  lemma TopEntryFacts(totalZeros: nat, totalCoeffs: nat)
    requires totalZeros < 8 && totalCoeffs < 16
    ensures |Table| == 16 && |Table[totalZeros]| == 16
    ensures Table[totalZeros][totalCoeffs].numBits > 0 <==> IsCodedPair(totalZeros, totalCoeffs)
    ensures Table[totalZeros][totalCoeffs].numBits == 0 ==> Table[totalZeros][totalCoeffs] == Vlc(0, 0)
    ensures Table[totalZeros][totalCoeffs].numBits <= 9
    ensures Table[totalZeros][totalCoeffs].codeWord < Pow2(Table[totalZeros][totalCoeffs].numBits)
  {
    assert totalZeros == 0 || totalZeros == 1 || totalZeros == 2 || totalZeros == 3 || totalZeros == 4 || totalZeros == 5 || totalZeros == 6 || totalZeros == 7;
    assert totalCoeffs == 0 || totalCoeffs == 1 || totalCoeffs == 2 || totalCoeffs == 3 || totalCoeffs == 4 || totalCoeffs == 5 || totalCoeffs == 6 || totalCoeffs == 7 || totalCoeffs == 8 || totalCoeffs == 9 || totalCoeffs == 10 || totalCoeffs == 11 || totalCoeffs == 12 || totalCoeffs == 13 || totalCoeffs == 14 || totalCoeffs == 15;
  }

  lemma BottomEntryFacts(totalZeros: nat, totalCoeffs: nat)
    requires 8 <= totalZeros < 16 && totalCoeffs < 16
    ensures |Table| == 16 && |Table[totalZeros]| == 16
    ensures Table[totalZeros][totalCoeffs].numBits > 0 <==> IsCodedPair(totalZeros, totalCoeffs)
    ensures Table[totalZeros][totalCoeffs].numBits == 0 ==> Table[totalZeros][totalCoeffs] == Vlc(0, 0)
    ensures Table[totalZeros][totalCoeffs].numBits <= 9
    ensures Table[totalZeros][totalCoeffs].codeWord < Pow2(Table[totalZeros][totalCoeffs].numBits)
  {
    assert totalZeros == 8 || totalZeros == 9 || totalZeros == 10 || totalZeros == 11 || totalZeros == 12 || totalZeros == 13 || totalZeros == 14 || totalZeros == 15;
    assert totalCoeffs == 0 || totalCoeffs == 1 || totalCoeffs == 2 || totalCoeffs == 3 || totalCoeffs == 4 || totalCoeffs == 5 || totalCoeffs == 6 || totalCoeffs == 7 || totalCoeffs == 8 || totalCoeffs == 9 || totalCoeffs == 10 || totalCoeffs == 11 || totalCoeffs == 12 || totalCoeffs == 13 || totalCoeffs == 14 || totalCoeffs == 15;
  }

  /** The code for a symbol pair: a code of 1 to 9 bits exactly for the pairs a block
      can produce, and the empty entry (0, 0) for every other pair. */
  function CodeOf(totalZeros: int, totalCoeffs: int): (c: VlcCode)
    requires 0 <= totalZeros < 16 && 0 <= totalCoeffs < 16
    ensures c.numBits > 0 <==> IsCodedPair(totalZeros, totalCoeffs)
    ensures c.numBits == 0 ==> c == Vlc(0, 0)
    ensures c.numBits > 0 ==> 1 <= c.numBits <= 9 && c.codeWord < Pow2(c.numBits)
  {
    EntryFacts(totalZeros, totalCoeffs);
    Table[totalZeros][totalCoeffs]
  }

  /** Every totalCoeffs column of the table is a prefix code. */
  lemma TotalZerosColumnsArePrefixFree(totalCoeffs: nat)
    requires totalCoeffs < 16
    ensures PrefixFreeColumn(totalCoeffs)
  {
    forall a, b | 0 <= a < 16 && 0 <= b < 16 && a != b
                  && IsCodedPair(a, totalCoeffs) && IsCodedPair(b, totalCoeffs)
      ensures !IsPrefixOf(Table[a][totalCoeffs], Table[b][totalCoeffs])
    {
      if totalCoeffs == 1 {
        Column1PrefixFree(a, b);
      } else if totalCoeffs == 2 {
        Column2PrefixFree(a, b);
      } else if totalCoeffs == 3 {
        Column3PrefixFree(a, b);
      } else if totalCoeffs == 4 {
        Column4PrefixFree(a, b);
      } else if totalCoeffs == 5 {
        Column5PrefixFree(a, b);
      } else if totalCoeffs == 6 {
        Column6PrefixFree(a, b);
      } else if totalCoeffs == 7 {
        Column7PrefixFree(a, b);
      } else if totalCoeffs == 8 {
        Column8PrefixFree(a, b);
      } else if totalCoeffs == 9 {
        Column9PrefixFree(a, b);
      } else if totalCoeffs == 10 {
        Column10PrefixFree(a, b);
      } else if totalCoeffs == 11 {
        Column11PrefixFree(a, b);
      } else if totalCoeffs == 12 {
        Column12PrefixFree(a, b);
      } else if totalCoeffs == 13 {
        Column13PrefixFree(a, b);
      } else if totalCoeffs == 14 {
        Column14PrefixFree(a, b);
      } else if totalCoeffs == 15 {
        Column15PrefixFree(a, b);
      }
    }
  }

  /** The two ends of the totalCoeffs = 1 column: 1 and 000000001. */
  lemma KnownCodes()
    ensures CodeOf(0, 1) == Vlc(1, 1)
    ensures CodeOf(15, 1) == Vlc(9, 1)
  {
  }

  lemma Column1PrefixFree(a: nat, b: nat)
    requires a < 16 && b < 16 && a != b
    ensures !IsPrefixOf(Table[a][1], Table[b][1])
  {
    if a < 8 {
      Column1TopPrefixFree(a, b);
    } else {
      Column1BottomPrefixFree(a, b);
    }
  }

  lemma Column1TopPrefixFree(a: nat, b: nat)
    requires a < 8 && b < 16 && a != b
    ensures !IsPrefixOf(Table[a][1], Table[b][1])
  {
    if b < 8 {
      Column1TopTopPrefixFree(a, b);
    } else {
      Column1TopBottomPrefixFree(a, b);
    }
  }

  lemma Column1TopTopPrefixFree(a: nat, b: nat)
    requires a < 8 && b < 8 && a != b
    ensures !IsPrefixOf(Table[a][1], Table[b][1])
  {
    assert a == 0 || a == 1 || a == 2 || a == 3 || a == 4 || a == 5 || a == 6 || a == 7;
    assert b == 0 || b == 1 || b == 2 || b == 3 || b == 4 || b == 5 || b == 6 || b == 7;
  }

  lemma Column1TopBottomPrefixFree(a: nat, b: nat)
    requires a < 8 && 8 <= b < 16
    ensures !IsPrefixOf(Table[a][1], Table[b][1])
  {
    assert a == 0 || a == 1 || a == 2 || a == 3 || a == 4 || a == 5 || a == 6 || a == 7;
    assert b == 8 || b == 9 || b == 10 || b == 11 || b == 12 || b == 13 || b == 14 || b == 15;
  }

  lemma Column1BottomPrefixFree(a: nat, b: nat)
    requires 8 <= a < 16 && b < 16 && a != b
    ensures !IsPrefixOf(Table[a][1], Table[b][1])
  {
    assert a == 8 || a == 9 || a == 10 || a == 11 || a == 12 || a == 13 || a == 14 || a == 15;
    assert b == 0 || b == 1 || b == 2 || b == 3 || b == 4 || b == 5 || b == 6 || b == 7 || b == 8 || b == 9 || b == 10 || b == 11 || b == 12 || b == 13 || b == 14 || b == 15;
  }

  lemma Column2PrefixFree(a: nat, b: nat)
    requires a < 15 && b < 15 && a != b
    ensures !IsPrefixOf(Table[a][2], Table[b][2])
  {
    if a < 7 {
      Column2TopPrefixFree(a, b);
    } else {
      Column2BottomPrefixFree(a, b);
    }
  }

  lemma Column2TopPrefixFree(a: nat, b: nat)
    requires a < 7 && b < 15 && a != b
    ensures !IsPrefixOf(Table[a][2], Table[b][2])
  {
    assert a == 0 || a == 1 || a == 2 || a == 3 || a == 4 || a == 5 || a == 6;
    assert b == 0 || b == 1 || b == 2 || b == 3 || b == 4 || b == 5 || b == 6 || b == 7 || b == 8 || b == 9 || b == 10 || b == 11 || b == 12 || b == 13 || b == 14;
  }

  lemma Column2BottomPrefixFree(a: nat, b: nat)
    requires 7 <= a < 15 && b < 15 && a != b
    ensures !IsPrefixOf(Table[a][2], Table[b][2])
  {
    assert a == 7 || a == 8 || a == 9 || a == 10 || a == 11 || a == 12 || a == 13 || a == 14;
    assert b == 0 || b == 1 || b == 2 || b == 3 || b == 4 || b == 5 || b == 6 || b == 7 || b == 8 || b == 9 || b == 10 || b == 11 || b == 12 || b == 13 || b == 14;
  }

  lemma Column3PrefixFree(a: nat, b: nat)
    requires a < 14 && b < 14 && a != b
    ensures !IsPrefixOf(Table[a][3], Table[b][3])
  {
    if a < 7 {
      Column3TopPrefixFree(a, b);
    } else {
      Column3BottomPrefixFree(a, b);
    }
  }

  lemma Column3TopPrefixFree(a: nat, b: nat)
    requires a < 7 && b < 14 && a != b
    ensures !IsPrefixOf(Table[a][3], Table[b][3])
  {
    assert a == 0 || a == 1 || a == 2 || a == 3 || a == 4 || a == 5 || a == 6;
    assert b == 0 || b == 1 || b == 2 || b == 3 || b == 4 || b == 5 || b == 6 || b == 7 || b == 8 || b == 9 || b == 10 || b == 11 || b == 12 || b == 13;
  }

  lemma Column3BottomPrefixFree(a: nat, b: nat)
    requires 7 <= a < 14 && b < 14 && a != b
    ensures !IsPrefixOf(Table[a][3], Table[b][3])
  {
    assert a == 7 || a == 8 || a == 9 || a == 10 || a == 11 || a == 12 || a == 13;
    assert b == 0 || b == 1 || b == 2 || b == 3 || b == 4 || b == 5 || b == 6 || b == 7 || b == 8 || b == 9 || b == 10 || b == 11 || b == 12 || b == 13;
  }

  lemma Column4PrefixFree(a: nat, b: nat)
    requires a < 13 && b < 13 && a != b
    ensures !IsPrefixOf(Table[a][4], Table[b][4])
  {
    if a < 6 {
      Column4TopPrefixFree(a, b);
    } else {
      Column4BottomPrefixFree(a, b);
    }
  }

  lemma Column4TopPrefixFree(a: nat, b: nat)
    requires a < 6 && b < 13 && a != b
    ensures !IsPrefixOf(Table[a][4], Table[b][4])
  {
    assert a == 0 || a == 1 || a == 2 || a == 3 || a == 4 || a == 5;
    assert b == 0 || b == 1 || b == 2 || b == 3 || b == 4 || b == 5 || b == 6 || b == 7 || b == 8 || b == 9 || b == 10 || b == 11 || b == 12;
  }

  lemma Column4BottomPrefixFree(a: nat, b: nat)
    requires 6 <= a < 13 && b < 13 && a != b
    ensures !IsPrefixOf(Table[a][4], Table[b][4])
  {
    assert a == 6 || a == 7 || a == 8 || a == 9 || a == 10 || a == 11 || a == 12;
    assert b == 0 || b == 1 || b == 2 || b == 3 || b == 4 || b == 5 || b == 6 || b == 7 || b == 8 || b == 9 || b == 10 || b == 11 || b == 12;
  }

  lemma Column5PrefixFree(a: nat, b: nat)
    requires a < 12 && b < 12 && a != b
    ensures !IsPrefixOf(Table[a][5], Table[b][5])
  {
    assert a == 0 || a == 1 || a == 2 || a == 3 || a == 4 || a == 5 || a == 6 || a == 7 || a == 8 || a == 9 || a == 10 || a == 11;
    assert b == 0 || b == 1 || b == 2 || b == 3 || b == 4 || b == 5 || b == 6 || b == 7 || b == 8 || b == 9 || b == 10 || b == 11;
  }

  lemma Column6PrefixFree(a: nat, b: nat)
    requires a < 11 && b < 11 && a != b
    ensures !IsPrefixOf(Table[a][6], Table[b][6])
  {
    assert a == 0 || a == 1 || a == 2 || a == 3 || a == 4 || a == 5 || a == 6 || a == 7 || a == 8 || a == 9 || a == 10;
    assert b == 0 || b == 1 || b == 2 || b == 3 || b == 4 || b == 5 || b == 6 || b == 7 || b == 8 || b == 9 || b == 10;
  }

  lemma Column7PrefixFree(a: nat, b: nat)
    requires a < 10 && b < 10 && a != b
    ensures !IsPrefixOf(Table[a][7], Table[b][7])
  {
    assert a == 0 || a == 1 || a == 2 || a == 3 || a == 4 || a == 5 || a == 6 || a == 7 || a == 8 || a == 9;
    assert b == 0 || b == 1 || b == 2 || b == 3 || b == 4 || b == 5 || b == 6 || b == 7 || b == 8 || b == 9;
  }

  lemma Column8PrefixFree(a: nat, b: nat)
    requires a < 9 && b < 9 && a != b
    ensures !IsPrefixOf(Table[a][8], Table[b][8])
  {
    assert a == 0 || a == 1 || a == 2 || a == 3 || a == 4 || a == 5 || a == 6 || a == 7 || a == 8;
    assert b == 0 || b == 1 || b == 2 || b == 3 || b == 4 || b == 5 || b == 6 || b == 7 || b == 8;
  }

  lemma Column9PrefixFree(a: nat, b: nat)
    requires a < 8 && b < 8 && a != b
    ensures !IsPrefixOf(Table[a][9], Table[b][9])
  {
    assert a == 0 || a == 1 || a == 2 || a == 3 || a == 4 || a == 5 || a == 6 || a == 7;
    assert b == 0 || b == 1 || b == 2 || b == 3 || b == 4 || b == 5 || b == 6 || b == 7;
  }

  lemma Column10PrefixFree(a: nat, b: nat)
    requires a < 7 && b < 7 && a != b
    ensures !IsPrefixOf(Table[a][10], Table[b][10])
  {
    assert a == 0 || a == 1 || a == 2 || a == 3 || a == 4 || a == 5 || a == 6;
    assert b == 0 || b == 1 || b == 2 || b == 3 || b == 4 || b == 5 || b == 6;
  }

  lemma Column11PrefixFree(a: nat, b: nat)
    requires a < 6 && b < 6 && a != b
    ensures !IsPrefixOf(Table[a][11], Table[b][11])
  {
    assert a == 0 || a == 1 || a == 2 || a == 3 || a == 4 || a == 5;
    assert b == 0 || b == 1 || b == 2 || b == 3 || b == 4 || b == 5;
  }

  lemma Column12PrefixFree(a: nat, b: nat)
    requires a < 5 && b < 5 && a != b
    ensures !IsPrefixOf(Table[a][12], Table[b][12])
  {
    assert a == 0 || a == 1 || a == 2 || a == 3 || a == 4;
    assert b == 0 || b == 1 || b == 2 || b == 3 || b == 4;
  }

  lemma Column13PrefixFree(a: nat, b: nat)
    requires a < 4 && b < 4 && a != b
    ensures !IsPrefixOf(Table[a][13], Table[b][13])
  {
    assert a == 0 || a == 1 || a == 2 || a == 3;
    assert b == 0 || b == 1 || b == 2 || b == 3;
  }

  lemma Column14PrefixFree(a: nat, b: nat)
    requires a < 3 && b < 3 && a != b
    ensures !IsPrefixOf(Table[a][14], Table[b][14])
  {
    assert a == 0 || a == 1 || a == 2;
    assert b == 0 || b == 1 || b == 2;
  }

  lemma Column15PrefixFree(a: nat, b: nat)
    requires a < 2 && b < 2 && a != b
    ensures !IsPrefixOf(Table[a][15], Table[b][15])
  {
    assert a == 0 || a == 1;
    assert b == 0 || b == 1;
  }

  class TotalZeros4x4VlcEncoder {
    /** `_numCodeBits`: the length of the last code produced. */
    var numCodeBits: int
    /** `_bitCode`: the last code produced. */
    var bitCode: int

    constructor ()
      ensures numCodeBits == 0 && bitCode == 0
    {
      numCodeBits := 0;
      bitCode := 0;
    }

    /** `Encode2(totalZeros, totalCoeffs)`: looks the pair up, keeps the code and its
        length in the fields and returns the length. The result depends on the two
        symbols only, never on earlier calls. */
    method Encode2(symbol1: int, symbol2: int) returns (numBits: int)
      requires 0 <= symbol1 < 16 && 0 <= symbol2 < 16
      modifies this
      ensures bitCode == CodeOf(symbol1, symbol2).codeWord
      ensures numCodeBits == CodeOf(symbol1, symbol2).numBits
      ensures numBits == numCodeBits
    {
      var totalZeros := symbol1;
      var totalCoeffs := symbol2;
      bitCode := CodeOf(totalZeros, totalCoeffs).codeWord;
      numCodeBits := CodeOf(totalZeros, totalCoeffs).numBits;
      numBits := numCodeBits;
    }
  }
}
