/**
 What the physical page allocator does, seen from its callers: a free list and a
 reference count for every page handed out.  `PageAlloc` proves that the allocator's
 state array, in-page links and counters implement exactly these functions; the address
 spaces and the kernel heap are built on them.
 */
module Pool {

  const REF_MAX: nat := 65535          // the count is an unsigned short

  /** `free` is the free list from its head; `refs` counts the allocated pages' references. */
  datatype Pool = Pool(free: seq<int>, refs: map<int, nat>) {

    ghost predicate Valid() {
      && (forall i, j :: 0 <= i < j < |free| ==> free[i] != free[j])
      && (forall i :: 0 <= i < |free| ==> free[i] !in refs && free[i] != 0)
      && (forall pa :: pa in refs ==> pa != 0 && 1 <= refs[pa] <= REF_MAX)
    }

    /** Every page the allocator manages. */
    ghost function Managed(): set<int> {
      (set pa | pa in free) + refs.Keys
    }

    /** `page_alloc`: the head of the free list, or 0 when there is none. */
    function Alloc(): (r: (Pool, int))
      requires Valid()
      ensures r.0.Valid() && r.0.Managed() == Managed()
      ensures r.1 == 0 <==> free == []
      ensures r.1 == 0 ==> r.0 == this
      ensures r.1 != 0 ==> r.1 == free[0] && r.1 !in refs && r.0.refs == refs[r.1 := 1] && r.0.free == free[1..]
      ensures forall pa :: pa in r.0.free ==> pa in free && pa != r.1
    {
      if free == [] then (this, 0)
      else
        assert free == [free[0]] + free[1..];
        (Pool(free[1..], refs[free[0] := 1]), free[0])
    }

    /** `page_free`: drop one reference; the last one returns the page. */
    function Free(pa: int): (r: Pool)
      requires Valid()
      ensures r.Valid() && r.Managed() == Managed()
      ensures pa !in refs ==> r == this
      ensures pa in refs && refs[pa] > 1 ==> r == this.(refs := refs[pa := refs[pa] - 1])
      ensures pa in refs && refs[pa] == 1 ==> r.refs == refs - {pa} && r.free == [pa] + free
    {
      if pa !in refs then this
      else if refs[pa] > 1 then this.(refs := refs[pa := refs[pa] - 1])
      else
        assert refs.Keys == (refs - {pa}).Keys + {pa};
        Pool([pa] + free, refs - {pa})
    }

    /** `page_ref_inc`: ignored for a page that is not allocated and at saturation. */
    function RefInc(pa: int): (r: Pool)
      requires Valid()
      ensures r.Valid() && r.Managed() == Managed() && r.free == free
      ensures r.refs == if pa in refs && refs[pa] < 65535 then refs[pa := refs[pa] + 1] else refs
    {
      if pa in refs && refs[pa] != REF_MAX then
        assert refs.Keys == refs[pa := refs[pa] + 1].Keys;
        this.(refs := refs[pa := refs[pa] + 1])
      else this
    }

    /** `page_ref_dec`: the same effect as `page_free` on an allocated page. */
    function RefDec(pa: int): (r: Pool)
      requires Valid()
      ensures r == Free(pa)
    {
      if pa !in refs then this
      else
        var left := refs[pa] - 1;
        if left != 0 then this.(refs := refs[pa := left])
        else Pool([pa] + free, refs - {pa})
    }

    /** `page_ref_get`: 0 for a page that is not allocated. */
    function RefGet(pa: int): nat {
      if pa in refs then refs[pa] else 0
    }
  }
}
