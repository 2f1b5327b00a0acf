/** Go slices (go_tour/3_structs_slices_maps.go). A slice is a small value,
    its header: a reference to a backing array, the index in that array of
    the slice's element 0, and its length; its capacity runs to the end of
    the backing array. Copying a slice copies the header only, so every
    slice made from another one shares its backing array, and a write
    through one of them is seen through all that overlap it. */
module Slices {

  datatype Option<T> = None | Some(value: T)

  datatype Slice<T> = Slice(data: array<T>, off: nat, len: nat) {

    ghost predicate Valid() {
      off + len <= data.Length
    }

    /** `cap(s)`. */
    function Cap(): int {
      data.Length - off
    }

    /** The elements `s[0] ... s[len(s)-1]`. */
    function Elems(): seq<T>
      reads data
      requires Valid()
    {
      data[off..off + len]
    }
  }

  /** The slice `a[:]` of an array variable. */
  function Whole<T>(a: array<T>): Slice<T> {
    Slice(a, 0, a.Length)
  }

  /** `s[lo:hi]`, legal when `0 <= lo <= hi <= cap(s)` (otherwise Go
      panics, here None): the result starts lo elements further into the
      same backing array, so its capacity shrinks by lo, and it may reach
      past len(s) as far as cap(s). */
  function Reslice<T>(s: Slice<T>, lo: int, hi: int): (r: Option<Slice<T>>)
    requires s.Valid()
    ensures r.Some? <==> 0 <= lo <= hi <= s.Cap()
    ensures r.Some? ==> && r.value.Valid() && r.value.data == s.data
                        && r.value.len == hi - lo && r.value.Cap() == s.Cap() - lo
  {
    if 0 <= lo <= hi <= s.Cap() then Some(Slice(s.data, s.off + lo, hi - lo)) else None
  }

  /** The elements of `s[lo:hi]` are the backing array's from s's element lo
      on; within len(s) they are the elements lo to hi-1 of s. */
  lemma ResliceElems<T>(s: Slice<T>, lo: int, hi: int)
    requires s.Valid() && 0 <= lo <= hi <= s.Cap()
    ensures Reslice(s, lo, hi).Some?
    ensures Reslice(s, lo, hi).value.Elems() == s.data[s.off + lo..s.off + hi]
    ensures hi <= s.len ==> Reslice(s, lo, hi).value.Elems() == s.Elems()[lo..hi]
  {
    var r := Reslice(s, lo, hi).value;
    assert r.Elems() == s.data[s.off + lo..s.off + hi];
    if hi <= s.len {
      forall k | 0 <= k < hi - lo
        ensures r.Elems()[k] == s.Elems()[lo..hi][k]
      {
        assert r.Elems()[k] == s.data[s.off + lo + k];
        assert s.Elems()[lo + k] == s.data[s.off + lo + k];
      }
    }
  }

  /** A slice expression whose bounds may be omitted: a missing low bound
      is 0, a missing high bound is `len(s)`. With the bounds so filled in,
      the expression is legal and shapes its result as `s[lo:hi]` does. */
  function SliceExpr<T>(s: Slice<T>, lo: Option<int>, hi: Option<int>): (r: Option<Slice<T>>)
    requires s.Valid()
    ensures var l := if lo.Some? then lo.value else 0;
            var h := if hi.Some? then hi.value else s.len;
            && (r.Some? <==> 0 <= l <= h <= s.Cap())
            && (r.Some? ==> r.value.data == s.data && r.value.len == h - l
                            && r.value.Cap() == s.Cap() - l)
    ensures lo.None? && hi.None? ==> r == Some(s)
  {
    Reslice(s, if lo.Some? then lo.value else 0, if hi.Some? then hi.value else s.len)
  }

  /** `s[0:len(s)]`, `s[:len(s)]`, `s[0:]` and `s[:]` are all s itself. */
  lemma DefaultBounds<T>(s: Slice<T>)
    requires s.Valid()
    ensures SliceExpr(s, Some(0), Some(s.len)) == Some(s)
    ensures SliceExpr(s, None, Some(s.len)) == Some(s)
    ensures SliceExpr(s, Some(0), None) == Some(s)
    ensures SliceExpr(s, None, None) == Some(s)
  {
  }

  /** `s[i] = x`: writes element off + i of the backing array. An index
      outside `[0, len(s))` panics (ok is false) and writes nothing. */
  method Store<T>(s: Slice<T>, i: int, x: T) returns (ok: bool)
    requires s.Valid()
    modifies s.data
    ensures ok <==> 0 <= i < s.len
    ensures ok ==> s.data[..] == old(s.data[..])[s.off + i := x]
    ensures !ok ==> unchanged(s.data)
  {
    ok := 0 <= i < s.len;
    if ok {
      s.data[s.off + i] := x;
    }
  }

  /** The elements a slice w shows of backing-array contents mem. */
  ghost function View<T>(mem: seq<T>, w: Slice<T>): seq<T>
    requires w.off + w.len <= |mem|
  {
    mem[w.off..w.off + w.len]
  }

  /** After `s[i] = x`, any slice w over the same backing array shows x at
      the position that overlaps the written element, and its old elements
      everywhere else. */
  lemma StoreSeenThroughOverlap<T>(mem: seq<T>, s: Slice<T>, i: nat, x: T, w: Slice<T>)
    requires s.off + s.len <= |mem| && w.off + w.len <= |mem| && i < s.len
    ensures forall j :: 0 <= j < w.len ==>
              View(mem[s.off + i := x], w)[j] == if w.off + j == s.off + i then x else View(mem, w)[j]
  {
    var mem' := mem[s.off + i := x];
    forall j | 0 <= j < w.len
      ensures View(mem', w)[j] == if w.off + j == s.off + i then x else View(mem, w)[j]
    {
      assert View(mem', w)[j] == mem'[w.off + j];
      assert View(mem, w)[j] == mem[w.off + j];
    }
  }

  /** `make([]int, n, c)`: a fresh zeroed backing array of c elements. A
      negative length or a length above the capacity panics (None). */
  method Make(n: int, c: int) returns (r: Option<Slice<int>>)
    ensures r.Some? <==> 0 <= n <= c
    ensures r.Some? ==> var s := r.value;
              && fresh(s.data) && s.Valid() && s.off == 0 && s.len == n && s.Cap() == c
              && s.data[..] == seq(c, _ => 0)
  {
    if 0 <= n <= c {
      var a := new int[c](_ => 0);
      r := Some(Slice(a, 0, n));
    } else {
      r := None;
    }
  }

  /** Copies xs into a from index base on; the rest of a is untouched. */
  method WriteAt<T>(a: array<T>, base: nat, xs: seq<T>)
    requires base + |xs| <= a.Length
    modifies a
    ensures forall k :: 0 <= k < a.Length ==>
              a[k] == if base <= k < base + |xs| then xs[k - base] else old(a[k])
  {
    for j := 0 to |xs|
      invariant forall k :: 0 <= k < a.Length ==>
                  a[k] == if base <= k < base + j then xs[k - base] else old(a[k])
    {
      a[base + j] := xs[j];
    }
  }

  /** `append(s, xs...)`. When the capacity suffices, xs is written into the
      backing array right after s's elements, where every other slice over
      that array sees it; otherwise a fresh array of capacity `grownCap` (the
      runtime's choice, at least the new length) receives a copy of s's
      elements followed by xs, and the old array is left as it was. */
  method Append<T(0)>(s: Slice<T>, xs: seq<T>, grownCap: nat) returns (r: Slice<T>)
    requires s.Valid()
    requires s.len + |xs| > s.Cap() ==> grownCap >= s.len + |xs|
    modifies s.data
    ensures r.Valid() && r.len == s.len + |xs|
    ensures r.Elems() == old(s.Elems()) + xs
    ensures s.len + |xs| <= s.Cap() ==>
              && r.data == s.data && r.off == s.off
              && forall k :: 0 <= k < s.data.Length && !(s.off + s.len <= k < s.off + r.len)
                   ==> s.data[k] == old(s.data[k])
    ensures s.len + |xs| > s.Cap() ==>
              fresh(r.data) && r.off == 0 && r.Cap() == grownCap && unchanged(s.data)
  {
    var n := s.len + |xs|;
    if n <= s.Cap() {
      ghost var before := s.Elems();
      WriteAt(s.data, s.off + s.len, xs);
      r := Slice(s.data, s.off, n);
      assert forall k :: 0 <= k < n ==> r.Elems()[k] == (before + xs)[k];
      assert r.Elems() == before + xs;
    } else {
      var a := new T[grownCap];
      var elems := s.Elems();
      WriteAt(a, 0, elems);
      WriteAt(a, s.len, xs);
      r := Slice(a, 0, n);
      assert r.Elems() == elems + xs;
    }
  }

  /** What `printSlice` shows of a slice: `len=%d cap=%d %v`. */
  datatype Shown = Shown(len: int, cap: int, elems: seq<int>)

  function Show(s: Slice<int>): Shown
    reads s.data
    requires s.Valid()
  {
    Shown(s.len, s.Cap(), s.Elems())
  }
}
