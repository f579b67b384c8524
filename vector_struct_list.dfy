/** A list of vector structures of one of two kinds: simple (one 2-D vector per entry)
    or complex (a pattern number, a vector count and a separately allocated array of
    2-D vectors per entry). Vector components are stored as 16-bit shorts. */
module VectorStructs {
  import opened BitArith
  import opened Wrappers

  /** The kinds of list (`SIMPLE2D`, `COMPLEX2D`). */
  const Simple2D: int := 0
  const Complex2D: int := 1

  type Short = x: int | -32768 <= x < 32768

  /** `VCL_2D_TYPE`: one 2-D vector. */
  datatype Vec2 = Vec2(x: Short, y: Short)

  /** `VCL_COMPLEX_2D_TYPE`: a pattern, how many of its vectors are in use, and the
      vectors themselves. */
  datatype Slot = Slot(pattern: int, numVectors: int, vec: array?<Vec2>)

  /** Storing val in component `element` (0 is x, 1 is y) of a vector, truncated to a
      short; any other element leaves the vector as it is. */
  function WithElement(v: Vec2, element: int, val: int): (r: Vec2)
    ensures element == 0 ==> r.x == ToShort(val) && r.y == v.y
    ensures element == 1 ==> r.y == ToShort(val) && r.x == v.x
    ensures element != 0 && element != 1 ==> r == v
  {
    if element == 0 then v.(x := ToShort(val))
    else if element == 1 then v.(y := ToShort(val))
    else v
  }

  /** Component `element` of a vector widened to int, and 0 for any other element. */
  function ElementOf(v: Vec2, element: int): (r: int)
    ensures -32768 <= r < 32768
    ensures element != 0 && element != 1 ==> r == 0
  {
    if element == 0 then v.x else if element == 1 then v.y else 0
  }

  /** Reading back a stored component gives the value truncated to a short, and the
      other component is untouched. */
  lemma ElementRoundTrip(v: Vec2, element: int, val: int)
    requires element == 0 || element == 1
    ensures ElementOf(WithElement(v, element, val), element) == ToShort(val)
    ensures ElementOf(WithElement(v, element, val), 1 - element) == ElementOf(v, 1 - element)
    ensures -32768 <= val < 32768 ==> ElementOf(WithElement(v, element, val), element) == val
  {
  }

  class VectorStructList {
    /** `_type`: Simple2D, Complex2D, or any other value (then nothing is ever stored). */
    const kind: int
    /** `_dim`: the vector dimension, forced to 2 once storage exists. */
    var dim: int
    /** `_maxVecsPerStruct`: vectors per complex entry, forced to 1 for a simple list. */
    var maxVecsPerStruct: int
    /** `_length`: the number of entries. */
    var length: int
    /** `_pData` of a simple list. */
    var simpleData: array?<Vec2>
    /** `_pData` of a complex list. */
    var complexData: array?<Slot>

    ghost predicate Valid()
      reads this, complexData
    {
      (kind != Simple2D ==> simpleData == null)
      && (kind != Complex2D ==> complexData == null)
      && (simpleData == null && complexData == null ==> length == 0)
      && (simpleData != null ==> length == simpleData.Length && maxVecsPerStruct == 1 && dim == 2)
      && (complexData != null ==>
            length == complexData.Length && dim == 2
            && (forall i | 0 <= i < complexData.Length ::
                  complexData[i].vec != null && complexData[i].vec.Length == maxVecsPerStruct)
            && (forall i, j | 0 <= i < j < complexData.Length :: complexData[i].vec != complexData[j].vec))
    }

    /** Storage exists. */
    predicate HasData()
      reads this
    {
      simpleData != null || complexData != null
    }

    /** Records the kind, dimension and vectors per entry; allocates nothing. */
    constructor (kind: int, dim: int, maxVecsPerStruct: int)
      ensures Valid()
      ensures this.kind == kind && this.dim == dim && this.maxVecsPerStruct == maxVecsPerStruct
      ensures length == 0 && !HasData()
    {
      this.kind := kind;
      this.dim := dim;
      this.maxVecsPerStruct := maxVecsPerStruct;
      length := 0;
      simpleData := null;
      complexData := null;
    }

    /** Releases the storage (each complex entry's vectors with it) and empties the list. */
    method Delete()
      requires Valid()
      modifies this
      ensures Valid()
      ensures !HasData() && length == 0
      ensures dim == old(dim) && maxVecsPerStruct == old(maxVecsPerStruct)
    {
      simpleData := null;
      complexData := null;
      length := 0;
    }

    /** Replaces the storage with `length` new entries of the list's kind. A negative
        length is refused with 0 and changes nothing; a kind that is neither simple nor
        complex gets no storage and 0. On success the result is 1, the dimension is 2, a
        simple list has one vector per entry, and every complex entry has pattern 0, no
        vectors in use, and its own new array of maxVecsPerStruct vectors. */
    method SetLength(length: int) returns (ok: int)
      requires Valid()
      requires length >= 0 && kind == Complex2D ==> maxVecsPerStruct >= 0
      modifies this
      ensures Valid()
      ensures length < 0 ==> ok == 0 && unchanged(this)
      ensures length >= 0 && kind != Simple2D && kind != Complex2D ==>
        ok == 0 && !HasData() && this.length == 0
        && dim == old(dim) && maxVecsPerStruct == old(maxVecsPerStruct)
      ensures length >= 0 && kind == Simple2D ==>
        ok == 1 && simpleData != null && fresh(simpleData) && this.length == length
        && dim == 2 && maxVecsPerStruct == 1
      ensures length >= 0 && kind == Complex2D ==>
        ok == 1 && complexData != null && fresh(complexData) && this.length == length
        && dim == 2 && maxVecsPerStruct == old(maxVecsPerStruct)
        && forall i | 0 <= i < length ::
             complexData[i].pattern == 0 && complexData[i].numVectors == 0 && fresh(complexData[i].vec)
    {
      if length < 0 {
        return 0;
      }
      if HasData() {
        Delete();
      }
      if kind == Simple2D {
        simpleData := new Vec2[length];
        maxVecsPerStruct := 1;
      } else if kind == Complex2D {
        var slots := new Slot[length];
        complexData := slots;
      }
      if !HasData() {
        return 0;
      }
      this.length := length;
      dim := 2;
      if kind == Complex2D {
        var p := complexData;
        var i := 0;
        while i < this.length
          invariant 0 <= i <= p.Length == this.length
          invariant complexData == p && fresh(p) && simpleData == null
          invariant dim == 2 && maxVecsPerStruct == old(maxVecsPerStruct)
          invariant forall m | 0 <= m < i ::
            p[m].pattern == 0 && p[m].numVectors == 0 && p[m].vec != null
            && fresh(p[m].vec) && p[m].vec.Length == maxVecsPerStruct
          invariant forall m, n | 0 <= m < n < i :: p[m].vec != p[n].vec
        {
          var vectors := new Vec2[maxVecsPerStruct];
          p[i] := Slot(0, 0, vectors);
          i := i + 1;
        }
      }
      return 1;
    }

    /** `GetLength()`: the number of entries, 0 when there is no storage. */
    function GetLength(): (n: int)
      reads this, complexData
      requires Valid()
      ensures n >= 0
      ensures !HasData() ==> n == 0
      ensures simpleData != null ==> n == simpleData.Length
      ensures complexData != null ==> n == complexData.Length
    {
      length
    }

    /** The entry a position names, or None (the null pointer) when there is no storage
        or the position is past the end. */
    function GetStructPtr(pos: int): (r: Option<nat>)
      reads this, complexData
      requires Valid() && pos >= 0
      ensures r.Some? <==> HasData() && pos < GetLength()
      ensures r.Some? ==> r.value == pos
      ensures r.Some? && kind == Simple2D ==> simpleData != null && r.value < simpleData.Length
      ensures r.Some? && kind == Complex2D ==> complexData != null && r.value < complexData.Length
    {
      if !HasData() || pos >= length then None else Some(pos)
    }

    /** Sets component `element` of the vector at `pos` to val truncated to a short;
        an element other than 0 or 1 writes nothing. Positions are not checked, so the
        caller keeps them in range. */
    method SetSimpleElement(pos: int, element: int, val: int)
      requires Valid()
      requires element == 0 || element == 1 ==> simpleData != null && 0 <= pos < simpleData.Length
      modifies simpleData
      ensures Valid()
      ensures element == 0 || element == 1 ==>
        GetSimpleElement(pos, element) == ToShort(val)
        && GetSimpleElement(pos, 1 - element) == old(GetSimpleElement(pos, 1 - element))
      ensures element == 0 || element == 1 ==>
        simpleData[..] == old(simpleData[..])[pos := WithElement(old(simpleData[pos]), element, val)]
      ensures element != 0 && element != 1 ==> simpleData == null || simpleData[..] == old(simpleData[..])
    {
      if element == 0 {
        simpleData[pos] := simpleData[pos].(x := ToShort(val));
      } else if element == 1 {
        simpleData[pos] := simpleData[pos].(y := ToShort(val));
      }
    }

    /** Component `element` of the vector at `pos`, widened to int; 0 for any other
        element. */
    function GetSimpleElement(pos: int, element: int): (val: int)
      reads this, simpleData, complexData
      requires Valid()
      requires element == 0 || element == 1 ==> simpleData != null && 0 <= pos < simpleData.Length
      ensures -32768 <= val < 32768
      ensures element != 0 && element != 1 ==> val == 0
      ensures element == 0 || element == 1 ==> val == ElementOf(simpleData[pos], element)
    {
      if element == 0 then simpleData[pos].x
      else if element == 1 then simpleData[pos].y
      else 0
    }

    /** Sets component `element` of vector `vecIndex` of the entry at `pos` to val
        truncated to a short; an element other than 0 or 1 writes nothing. Only that
        entry's vector array changes. */
    method SetComplexElement(pos: int, vecIndex: int, element: int, val: int)
      requires Valid()
      requires element == 0 || element == 1 ==>
        complexData != null && 0 <= pos < complexData.Length && 0 <= vecIndex < maxVecsPerStruct
      modifies if element == 0 || element == 1 then {complexData[pos].vec} else {}
      ensures Valid()
      ensures element == 0 || element == 1 ==>
        GetComplexElement(pos, vecIndex, element) == ToShort(val)
        && GetComplexElement(pos, vecIndex, 1 - element) == old(GetComplexElement(pos, vecIndex, 1 - element))
      ensures element == 0 || element == 1 ==>
        complexData[pos].vec[..] ==
          old(complexData[pos].vec[..])[vecIndex := WithElement(old(complexData[pos].vec[vecIndex]), element, val)]
    {
      if element == 0 || element == 1 {
        var slot := complexData[pos];
        if element == 0 {
          slot.vec[vecIndex] := slot.vec[vecIndex].(x := ToShort(val));
        } else {
          slot.vec[vecIndex] := slot.vec[vecIndex].(y := ToShort(val));
        }
      }
    }

    /** Component `element` of vector `vecIndex` of the entry at `pos`, widened to int;
        0 for any other element. */
    function GetComplexElement(pos: int, vecIndex: int, element: int): (val: int)
      requires Valid()
      requires element == 0 || element == 1 ==>
        complexData != null && 0 <= pos < complexData.Length && 0 <= vecIndex < maxVecsPerStruct
      reads this, complexData, if element == 0 || element == 1 then {complexData[pos].vec} else {}
      ensures -32768 <= val < 32768
      ensures element != 0 && element != 1 ==> val == 0
      ensures element == 0 || element == 1 ==> val == ElementOf(complexData[pos].vec[vecIndex], element)
    {
      if element == 0 then complexData[pos].vec[vecIndex].x
      else if element == 1 then complexData[pos].vec[vecIndex].y
      else 0
    }
  }
}
