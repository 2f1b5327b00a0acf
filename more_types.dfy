/** Pointers, structs and slices (go_tour/3_structs_slices_maps.go): each
    demo function returns the values it prints and, where it updates an
    array in place, the array's final contents. */
module MoreTypes {
  import opened GoInt
  import opened Slices

  // ---------------------------------------------------------------------
  // pointers

  /** An addressable `int` variable; `&i` is a reference to it. */
  class IntVar {
    var value: int

    constructor (value: int)
      ensures this.value == value
    {
      this.value := value;
    }
  }

  /** `pointers`: a write through p reaches the variable p points to and no
      other: `*p = 21` sets i and leaves j; after `p = &j`, `*p = *p / 37`
      sets j to 73 and leaves i at 21. */
  method Pointers() returns (printed: seq<int>, i: int, j: int)
    ensures printed == [42, 21, 21, 73, 73]
    ensures i == 21 && j == 73
  {
    var iv := new IntVar(42);
    var jv := new IntVar(2701);
    var p := iv;
    printed := [p.value];
    p.value := 21;
    assert jv.value == 2701;
    printed := printed + [iv.value, p.value];
    p := jv;
    QuotUnique(2701, 37, 73);
    p.value := Quot(p.value, 37);
    assert iv.value == 21;
    printed := printed + [jv.value, p.value];
    i, j := iv.value, jv.value;
  }

  // ---------------------------------------------------------------------
  // structs

  datatype Vertex = Vertex(X: int, Y: int)

  /** `Vertex{}`: every field has its zero value. */
  const ZeroVertex := Vertex(0, 0)

  /** An addressable Vertex variable; `&v` is a reference to it. */
  class VertexVar {
    var v: Vertex

    constructor (v: Vertex)
      ensures this.v == v
    {
      this.v := v;
    }
  }

  /** `structs`: the three states of v, then the package-level literals
      v1, v2, v3 and `*px`. A keyed literal leaves the omitted fields at
      their zero value. `1e9` is an untyped constant that converts to the
      `int` 1000000000 exactly. */
  method Structs() returns (printed: seq<Vertex>, literals: seq<Vertex>)
    ensures printed == [Vertex(1, 2), Vertex(4, 2), Vertex(4, 1000000000)]
    ensures literals == [Vertex(1, 2), Vertex(1, 0), Vertex(0, 0), Vertex(1, 2)]
  {
    var v := new VertexVar(Vertex(1, 2));
    printed := [v.v];
    v.v := v.v.(X := 4);
    printed := printed + [v.v];
    var p := v;
    p.v := p.v.(Y := 1000000000);
    printed := printed + [v.v];

    var px := new VertexVar(Vertex(1, 2));
    literals := [Vertex(1, 2), ZeroVertex.(X := 1), ZeroVertex, px.v];
  }

  // ---------------------------------------------------------------------
  // slices

  /** `slices`, up to the range loops: `primes[1:4]` is [3 5 7]; names is
      printed as declared; the overlapping slices a and b of names share its
      backing array, so the write `b[0] = "XXX"` shows as a[1], b[0] and
      names[1] (the final contents of names) and changes no other element;
      the four spellings of the full slice of primes agree. */
  method SlicesDemo() returns (s: seq<int>, shownNames: seq<string>, a: seq<string>,
                               b: seq<string>, names: seq<string>, full: seq<seq<int>>)
    ensures s == [3, 5, 7]
    ensures shownNames == ["John", "Paul", "George", "Ringo"]
    ensures a == ["John", "XXX"] && b == ["XXX", "George"]
    ensures names == ["John", "XXX", "George", "Ringo"]
    ensures |full| == 4 && forall k :: 0 <= k < 4 ==> full[k] == [2, 3, 5, 7, 11, 13]
  {
    var primes := new int[6] [2, 3, 5, 7, 11, 13];
    var sp := Reslice(Whole(primes), 1, 4).value;
    s := sp.Elems();
    assert s == primes[1..4] == [3, 5, 7];

    var namesArr := new string[4] ["John", "Paul", "George", "Ringo"];
    shownNames := namesArr[..];
    var sa := Reslice(Whole(namesArr), 0, 2).value;
    var sb := Reslice(Whole(namesArr), 1, 3).value;
    var _ := Store(sb, 0, "XXX");
    a, b, names := sa.Elems(), sb.Elems(), namesArr[..];

    var wp := Whole(primes);
    DefaultBounds(wp);
    var f1 := SliceExpr(wp, Some(0), Some(6)).value;
    var f2 := SliceExpr(wp, None, Some(6)).value;
    var f3 := SliceExpr(wp, Some(0), None).value;
    var f4 := SliceExpr(wp, None, None).value;
    full := [f1.Elems(), f2.Elems(), f3.Elems(), f4.Elems()];
  }

  /** The loop `for index := range pow { pow[index] = 1 << uint(index) }`:
      every element becomes `1 << index` as a 64-bit `int` computes it, which
      is two to the power of the index, wrapped into 64 bits (see
      GoInt.ShlOneWraps). */
  method PowLoop(pow: array<int>)
    modifies pow
    ensures forall i :: 0 <= i < pow.Length ==> pow[i] == ShlOne(i)
  {
    for index := 0 to pow.Length
      invariant forall i :: 0 <= i < index ==> pow[i] == ShlOne(i)
    {
      pow[index] := ShlOne(index);
    }
  }

  /** The `pow` slice of `slices`: the first range loop prints each index
      with its element (`2**i = v`), the second prints the elements; the
      literal already holds the powers of two, so the in-place loop leaves
      its eight elements as they were. */
  method PowDemo() returns (powers: seq<(int, int)>, values: seq<int>, pow: seq<int>)
    ensures |powers| == 8 && forall k :: 0 <= k < 8 ==> powers[k] == (k, Pow2(k))
    ensures values == [1, 2, 4, 8, 16, 32, 64, 128]
    ensures pow == values
  {
    var a := new int[8] [1, 2, 4, 8, 16, 32, 64, 128];
    assert Pow2(7) == 128;
    assert forall k :: 0 <= k < 8 ==> a[k] == Pow2(k);
    powers := [];
    for index := 0 to a.Length
      invariant |powers| == index
      invariant forall k :: 0 <= k < index ==> powers[k] == (k, a[k])
    {
      powers := powers + [(index, a[index])];
    }
    values := [];
    for index := 0 to a.Length
      invariant values == a[..index]
    {
      values := values + [a[index]];
    }
    PowLoop(a);
    pow := a[..];
  }

  /** `sliceLenCap`: reslicing within the capacity can shrink a slice to
      nothing and grow it back; dropping the first two elements also drops
      two from the capacity. */
  method SliceLenCap() returns (printed: seq<Shown>, last: seq<int>)
    ensures printed == [Shown(6, 6, [2, 3, 5, 7, 11, 13]), Shown(0, 6, []),
                        Shown(4, 6, [2, 3, 5, 7]), Shown(4, 4, [5, 7, 11, 13])]
    ensures last == [2, 3, 5, 7, 11, 13]
  {
    var arr := new int[6] [2, 3, 5, 7, 11, 13];
    var s := Whole(arr);
    printed := [Show(s)];
    assert s.Elems() == [2, 3, 5, 7, 11, 13];
    var a := Reslice(s, 0, 0).value;
    printed := printed + [Show(a)];
    a := Reslice(s, 0, 4).value;
    assert a.Elems() == arr[0..4] == [2, 3, 5, 7];
    printed := printed + [Show(a)];
    a := Reslice(s, 2, s.len).value;
    assert a.Elems() == arr[2..6] == [5, 7, 11, 13];
    printed := printed + [Show(a)];
    last := s.Elems();
  }

  /** `makeDynamicSlice`: `c := b[:2]` reaches into b's capacity and sees
      its zeroes; `d := c[2:5]` starts two elements into the backing array
      of capacity 5, so cap(d) is 5 - 2 = 3. */
  method MakeDynamicSlice() returns (printed: seq<Shown>)
    ensures printed == [Shown(5, 5, [0, 0, 0, 0, 0]), Shown(0, 5, []),
                        Shown(2, 5, [0, 0]), Shown(3, 3, [0, 0, 0])]
  {
    var ma := Make(5, 5);
    var a := ma.value;
    printed := [Show(a)];
    var mb := Make(0, 5);
    var b := mb.value;
    printed := printed + [Show(b)];
    var c := Reslice(b, 0, 2).value;
    printed := printed + [Show(c)];
    var d := Reslice(c, 2, 5).value;
    printed := printed + [Show(d)];
    assert a.data[..5] == [0, 0, 0, 0, 0];
    assert b.data[..2] == [0, 0] && b.data[2..5] == [0, 0, 0];
  }

  /** `sliceOfSlices`: a board of three rows, each its own slice of "_";
      the five moves set exactly the five cells they name. */
  method SliceOfSlices() returns (rows: seq<seq<string>>)
    ensures rows == [["X", "_", "X"], ["O", "_", "X"], ["_", "_", "O"]]
  {
    var a0 := new string[3] ["_", "_", "_"];
    var a1 := new string[3] ["_", "_", "_"];
    var a2 := new string[3] ["_", "_", "_"];
    var r0, r1, r2 := Whole(a0), Whole(a1), Whole(a2);
    var _ := Store(r0, 0, "X");
    var _ := Store(r2, 2, "O");
    var _ := Store(r1, 2, "X");
    var _ := Store(r1, 0, "O");
    var _ := Store(r0, 2, "X");
    rows := [Row(r0), Row(r1), Row(r2)];
  }

  /** The three cells of a board row, read through its slice. */
  function Row(r: Slice<string>): (cells: seq<string>)
    reads r.data
    requires r.Valid() && r.off == 0 && r.len == 3 == r.data.Length
    ensures cells == [r.data[0], r.data[1], r.data[2]]
  {
    r.Elems()
  }

  /** `sliceAppend`: appending to the nil slice one element at a time and
      then three at once gives [0 1 2 3 4]. The capacities of the arrays the
      runtime allocates on the way are parameters. */
  method SliceAppend(cap1: nat, cap2: nat, cap3: nat) returns (printed: seq<Shown>)
    requires cap1 >= 1 && cap2 >= 2 && cap3 >= 5
    ensures |printed| == 3
    ensures printed[0] == Shown(0, 0, [])
    ensures printed[1].len == 2 && printed[1].elems == [0, 1]
    ensures printed[2].len == 5 && printed[2].elems == [0, 1, 2, 3, 4]
    ensures forall k :: 0 <= k < 3 ==> printed[k].len <= printed[k].cap
  {
    var nilArray := new int[0];
    var s := Whole(nilArray);
    printed := [Show(s)];
    s := Append(s, [0], cap1);
    s := Append(s, [1], cap2);
    printed := printed + [Show(s)];
    s := Append(s, [2, 3, 4], cap3);
    printed := printed + [Show(s)];
  }
}
