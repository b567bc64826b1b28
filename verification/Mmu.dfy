/**
 The address-space code itself: ASIDs, ledgers, table allocation, mapping and unmapping,
 copy-on-write clones, page faults and kernel copies (`mmu_vmsa.c`).

 A method is one region under `mm->lock`.  The ghost field `eager` is the machine that
 copies every page at fork; `Valid` ties it to the tables, so a method that leaves `eager`
 alone changes nothing any address space can read.
 */
module Mmu {
  import opened Descriptor
  import opened Pool
  import opened AddressSpace
  import opened TableSteps
  import opened ContextSteps
  import opened Coupling
  import opened World
  import opened CloneProgress
  import opened CloneLeaves
  import opened CloneTally
  import opened Region
  import opened Wrappers

  /** Level 0 to 3 table indices of a virtual address. */
  function PathOf(va: nat): (p: Path)
    ensures PathOk(p, 4)
  {
    [(va / 0x80_0000_0000) % 512, (va / 0x4000_0000) % 512, (va / 0x20_0000) % 512, (va / 0x1000) % 512]
  }

  /** The ASIDs tried in the first `n` attempts from `start`, wrapping from 255 to 1. */
  ghost predicate Tried(start: nat, n: nat, a: nat) {
    if start + n <= ASID_MAX + 1 then start <= a < start + n
    else start <= a || a < start + n - ASID_MAX
  }

  /** How many ASIDs a search from `start` tries before `a`. */
  function From(start: nat, a: nat): int { if a >= start then a - start else a + ASID_MAX - start }

  class Mmu {
    var pool: Pool
    var ctxs: map<nat, Context>
    var tables: map<int, seq<Desc>>
    var frames: map<int, Bytes>
    var asids: seq<bool>
    var nextAsid: nat
    var outside: map<int, nat>         // what other subsystems hold, and how often
    ghost var shape: Shape
    ghost var eager: Eager
    ghost var all: set<int>

    ghost function W(): World
      reads this
    {
      World(pool, State(ctxs, tables, frames), asids, outside, all, eager)
    }

    ghost predicate Valid()
      reads this
    {
      Good(W(), shape) && 1 <= nextAsid <= ASID_MAX
    }

    constructor (pool: Pool, frames: map<int, Bytes>)
      requires pool.Valid()
      ensures Valid() && ctxs == map[] && eager == map[]
      ensures this.pool == pool && outside == pool.refs && all == pool.Managed()
    {
      this.pool, ctxs, tables, this.frames := pool, map[], map[], frames;
      asids, nextAsid := seq(ASID_MAX + 1, _ => false), 1;
      shape, eager, outside, all := Shape(map[], map[], map[]), map[], pool.refs, pool.Managed();
      new;
      Start(pool, frames);
    }

    // ------------------------------------------------------------ other users of the pool

    /** Another subsystem allocates a page. */
    method OthersAlloc() returns (pa: int)
      requires Valid()
      modifies this`pool, this`outside
      ensures Valid() && (pa == 0 <==> old(pool).free == [])
      ensures pa == 0 ==> pool == old(pool) && outside == old(outside)
      ensures pa != 0 ==> pool == old(pool).Alloc().0 && outside == old(outside)[pa := 1]
    {
      if pool.free != [] {
        OthersTake(W(), shape);
      }
      var (pool', page) := pool.Alloc();
      pool := pool';
      if page != 0 {
        outside := outside[page := 1];
      }
      pa := page;
    }

    /** Another subsystem frees a page it holds. */
    method OthersFree(pa: int)
      requires Valid() && pa in outside
      modifies this`pool, this`outside
      ensures Valid() && pool == old(pool).Free(pa)
      ensures outside == if old(outside)[pa] > 1 then old(outside)[pa := old(outside)[pa] - 1] else old(outside) - {pa}
    {
      OthersGive(W(), shape, pa);
      pool := pool.Free(pa);
      outside := if outside[pa] > 1 then outside[pa := outside[pa] - 1] else outside - {pa};
    }

    // ------------------------------------------------------------ ASIDs

    /** From any cursor: a free ASID, and 0 only when all 255 are in use. */
    method AsidAlloc() returns (asid: nat)
      requires |asids| == ASID_MAX + 1 && 1 <= nextAsid <= ASID_MAX
      modifies this`asids, this`nextAsid
      ensures |asids| == ASID_MAX + 1 && 1 <= nextAsid <= ASID_MAX
      ensures asid == 0 <==> forall a :: 1 <= a <= ASID_MAX ==> old(asids)[a]
      ensures asid == 0 ==> asids == old(asids) && nextAsid == old(nextAsid)
      ensures asid != 0 ==> asid <= ASID_MAX && !old(asids)[asid] && asids == old(asids)[asid := true]
      ensures asid != 0 ==> nextAsid == if asid < ASID_MAX then asid + 1 else 1
      ensures asid != 0 ==> forall a :: 1 <= a <= ASID_MAX && !old(asids)[a] ==> From(old(nextAsid), asid) <= From(old(nextAsid), a)
    {
      var start := nextAsid;
      var attempts := 0;
      while attempts < ASID_MAX
        invariant attempts <= ASID_MAX && 1 <= nextAsid <= ASID_MAX && asids == old(asids)
        invariant nextAsid == if start + attempts <= ASID_MAX then start + attempts else start + attempts - ASID_MAX
        invariant forall a :: 1 <= a <= ASID_MAX && Tried(start, attempts, a) ==> asids[a]
      {
        asid := nextAsid;
        nextAsid := nextAsid + 1;
        if nextAsid > ASID_MAX {
          nextAsid := 1;
        }
        attempts := attempts + 1;
        if asids[asid] {
          continue;
        }
        asids := asids[asid := true];
        return;
      }
      asid := 0;
    }

    method AsidFree(asid: nat)
      requires |asids| == ASID_MAX + 1
      modifies this`asids
      ensures asids == if 1 <= asid <= ASID_MAX then old(asids)[asid := false] else old(asids)
    {
      if asid == 0 || asid > ASID_MAX {
        return;
      }
      if !asids[asid] {
        assert asids == asids[asid := false];
        return;
      }
      asids := asids[asid := false];
    }

    // ------------------------------------------------------------ the ledger

    method HasPage(c: nat, pa: int) returns (found: bool)
      requires c in ctxs
      ensures found <==> pa in ctxs[c].pages
    {
      var pages := ctxs[c].pages;
      var i := 0;
      while i < |pages|
        invariant i <= |pages| && pa !in pages[..i]
      {
        if pages[i] == pa {
          return true;
        }
        i := i + 1;
      }
      assert pages[..i] == pages;
      found := false;
    }

    method AddPage(c: nat, pa: int) returns (ok: bool)
      requires c in ctxs
      modifies this`ctxs
      ensures ok <==> pa != 0 && (pa in old(ctxs)[c].pages || |old(ctxs)[c].pages| < 256)
      ensures ctxs == if ok && pa !in old(ctxs)[c].pages
                      then old(ctxs)[c := old(ctxs)[c].(pages := old(ctxs)[c].pages + [pa])]
                      else old(ctxs)
    {
      if pa == 0 {
        return false;
      }
      var found := HasPage(c, pa);
      if found {
        return true;
      }
      if |ctxs[c].pages| >= MAX_TRACKED {
        return false;
      }
      ctxs := ctxs[c := ctxs[c].(pages := ctxs[c].pages + [pa])];
      ok := true;
    }

    method RemovePage(c: nat, pa: int) returns (ok: bool)
      requires c in ctxs
      modifies this`ctxs
      ensures ok <==> pa != 0 && pa in old(ctxs)[c].pages
      ensures ctxs == if ok then old(ctxs)[c := old(ctxs)[c].(pages := Without(old(ctxs)[c].pages, pa))]
                      else old(ctxs)
    {
      if pa == 0 {
        return false;
      }
      var pages := ctxs[c].pages;
      var index := 0;
      while index < |pages|
        invariant index <= |pages| && pa !in pages[..index]
        invariant ctxs == old(ctxs)
      {
        if pages[index] != pa {
          index := index + 1;
          continue;
        }
        var tail := index + 1;
        while tail < |pages|
          invariant index < tail <= |pages| == |old(ctxs)[c].pages|
          invariant ctxs == old(ctxs)
          invariant pages[..index] == old(ctxs)[c].pages[..index]
          invariant forall k :: index <= k < tail - 1 ==> pages[k] == old(ctxs)[c].pages[k + 1]
          invariant forall k :: tail <= k < |pages| ==> pages[k] == old(ctxs)[c].pages[k]
        {
          pages := pages[tail - 1 := pages[tail]];
          tail := tail + 1;
        }
        WithoutAt(old(ctxs)[c].pages, pa, index);
        assert pages[..|pages| - 1] == Without(old(ctxs)[c].pages, pa);
        ctxs := ctxs[c := ctxs[c].(pages := pages[..|pages| - 1])];
        return true;
      }
      assert pages[..index] == pages;
      ok := false;
    }

    // ------------------------------------------------------------ tables

    /** `mmu_alloc_sub_table_locked`: a zeroed, tracked page, or no change at all. */
    method AllocSubTable(c: nat, ghost keep: int) returns (q: int)
      requires Valid() && c in ctxs && Kept(W(), shape, c, keep)
      modifies this`pool, this`ctxs, this`tables
      ensures Valid() && Kept(W(), shape, c, keep)
      ensures q == 0 <==> !CanTake(old(W()), c)
      ensures q == 0 ==> W() == old(W())
      ensures q != 0 ==> q != keep && Blank(W().s, shape, c, q) && q == old(pool).Alloc().1
      ensures q != 0 ==> W() == TakenTable(old(W()), c)
    {
      ghost var w := W();
      var (pool', pa) := pool.Alloc();
      if pa == 0 {
        return 0;
      }
      FreshPage(w, shape, pa);
      pool := pool';
      var ok := AddPage(c, pa);
      if !ok {
        pool := pool.Free(pa);
        AllocThenFree(w.pool);
        return 0;
      }
      tables := tables[pa := EmptyTable()];
      assert W() == TakenTable(w, c);
      TakeTable(w, shape, c, keep);
      q := pa;
    }

    /** Enter table `q` at index `i` of table `t`. */
    method Hang(t: int, i: nat, q: int, attrs: Attrs)
      requires t in tables && i < |tables[t]| && t in shape.place
      modifies this`tables, this`shape
      ensures W() == LinkedTable(old(W()), t, i, q, attrs) && shape == Linked(old(shape), t, i, q)
    {
      tables := tables[t := tables[t][i := Full(q, attrs)]];
      shape := Linked(shape, t, i, q);
    }

    /**
     One level of `mmu_find_pte_locked`: follow entry `i` of table `t`, or hang a new
     table there when `create` is set.
     */
    method NextTable(c: nat, t: int, i: nat, create: bool, ghost path: Path, ghost keep: int, ghost rest: Path) returns (q: int)
      requires Valid() && Table(W(), shape, c, t, path) && |path| < 3 && i < ENTRIES
      requires Kept(W(), shape, c, keep)
      modifies this`pool, this`ctxs, this`tables, this`shape
      ensures Valid() && Kept(W(), shape, c, keep)
      ensures ctxs.Keys == old(ctxs).Keys
      ensures !create ==> W() == old(W()) && shape == old(shape)
      ensures !create ==> (q == 0 <==> old(tables)[t][i] == Invalid)
      ensures q != 0 ==> Table(W(), shape, c, q, path + [i])
      ensures create && q == 0 ==> Lack(old(W()), c, t, [i] + rest) > 0
      ensures create && q != 0 ==> Lack(W(), c, q, rest) == Lack(old(W()), c, t, [i] + rest)
      ensures Stock(W(), c) == Stock(old(W()), c)
    {
      EntryTable(W(), shape, c, t, path, i);
      if tables[t][i].Block? {
        assert false;                  // a block to split never occurs
      }
      if tables[t][i] == Invalid {
        if !create {
          return 0;
        }
        q := AllocSubTable(c, keep);
        LackStep(old(W()), shape, c, t, path, i, rest, TABLE_ATTRS);
        if q == 0 {
          return 0;
        }
        LinkTable(W(), shape, c, t, path, i, q, TABLE_ATTRS, keep);
        Hang(t, i, q, TABLE_ATTRS);
        return;
      }
      q := tables[t][i].pa;
      assert ([i] + rest)[1..] == rest;
    }

    /** `mmu_find_pte_locked`: the level-3 table for `full`; no address space changes. */
    method FindPte(c: nat, full: Path, create: bool, ghost keep: int) returns (l3: int)
      requires Valid() && c in ctxs && PathOk(full, 4) && Kept(W(), shape, c, keep)
      modifies this`pool, this`ctxs, this`tables, this`shape
      ensures Valid() && Kept(W(), shape, c, keep)
      ensures ctxs.Keys == old(ctxs).Keys
      ensures !create ==> W() == old(W()) && shape == old(shape)
      ensures !create && l3 == 0 ==> forall p :: Beside(p, full) ==> p !in eager[c]
      ensures l3 != 0 ==> Table(W(), shape, c, l3, full[..3])
      ensures create ==> (l3 != 0 <==> Lack(old(W()), c, old(ctxs)[c].root, full[..3]) <= 0)
      ensures create && l3 != 0 ==> Room(W(), c) == -Lack(old(W()), c, old(ctxs)[c].root, full[..3])
      ensures Stock(W(), c) == Stock(old(W()), c)
    {
      Prefixes(full);
      Suffixes(full);
      RootTable(W(), shape, c);
      var l1 := NextTable(c, ctxs[c].root, full[0], create, [], keep, full[1..3]);
      if l1 == 0 {
        if !create {
          NoneBeside(W(), shape, c, ctxs[c].root, [], full[0], full);
        }
        return 0;
      }
      var l2 := NextTable(c, l1, full[1], create, full[..1], keep, full[2..3]);
      if l2 == 0 {
        if !create {
          NoneBeside(W(), shape, c, l1, full[..1], full[1], full);
        }
        return 0;
      }
      l3 := NextTable(c, l2, full[2], create, full[..2], keep, []);
      RoomLeft(W(), shape, c);
      if l3 == 0 && !create {
        NoneBeside(W(), shape, c, l2, full[..2], full[2], full);
      }
    }

    /** Enter page `q` in level-3 table `l3`. */
    method Enter(c: nat, l3: int, full: Path, q: int, attrs: Attrs)
      requires l3 in tables && |tables[l3]| == ENTRIES && PathOk(full, 4) && c in eager && q in frames
      modifies this`tables, this`shape, this`eager
      ensures W() == MappedPage(old(W()), c, l3, full[..3], full[3], q, NonGlobal(attrs))
      ensures shape == Rehomed(old(shape), c, q, full)
    {
      Prefixes(full);
      tables := tables[l3 := tables[l3][full[3] := Full(q, NonGlobal(attrs))]];
      shape := Rehomed(shape, c, q, full);
      eager := EagerMapped(eager, c, full, UserPage(frames[q], RightsOf(attrs)));
    }

    /**
     `mmu_map_user_page_locked`: on success exactly this virtual page now reads the new
     page; on failure, whatever tables were added, no address space changed.
     */
    method MapUserPage(c: nat, full: Path, q: int, attrs: Attrs) returns (ok: bool)
      requires Valid() && c in ctxs && PathOk(full, 4) && q != 0 && Kept(W(), shape, c, q)
      modifies this`pool, this`ctxs, this`tables, this`shape, this`eager
      ensures Valid()
      ensures ctxs.Keys == old(ctxs).Keys
      ensures !ok ==> eager == old(eager) && Kept(W(), shape, c, q)
      ensures ok ==> eager == EagerMapped(old(eager), c, full, UserPage(frames[q], RightsOf(attrs)))
      ensures ok ==> Leaf(W().s, c, full) == Full(q, NonGlobal(attrs))
      ensures ok <==> Lack(old(W()), c, old(ctxs)[c].root, full[..3]) <= 0
      ensures ok ==> Room(W(), c) == -Lack(old(W()), c, old(ctxs)[c].root, full[..3]) && Stock(W(), c) == Stock(old(W()), c)
      ensures ok ==> pool.RefGet(q) == 1
    {
      var l3 := FindPte(c, full, true, q);
      if l3 == 0 {
        return false;
      }
      KeptOnce(W(), shape, c, q);
      ghost var w := W();
      Prefixes(full);
      NonGlobalTagged(attrs);
      MapPage(w, shape, c, l3, full[..3], full[3], q, NonGlobal(attrs));
      Enter(c, l3, full, q, attrs);
      TableLeaf(W(), shape, c, l3, full[..3], full[3]);
      ok := true;
    }

    /**
     The scan of `mmu_try_merge_table_locked`: whether all entries are valid, of the type
     wanted and contiguous with equal attributes.
     */
    method MergeScan(t: seq<Desc>, step: int, block: int) returns (all: bool)
      requires |t| == ENTRIES && block != 0
      ensures all ==> forall k :: 0 <= k < ENTRIES ==> t[k].Full?
    {
      var i := 0;
      while i < ENTRIES
        invariant i <= ENTRIES && forall k :: 0 <= k < i ==> t[k].Full?
      {
        if !t[i].Full? {
          return false;
        }
        if i == 0 {
          if t[0].pa % block != 0 {
            return false;
          }
        } else if t[i].pa != t[0].pa + i * step || t[i].attrs != t[0].attrs {
          return false;
        }
        i := i + 1;
      }
      all := true;
    }

    /** `mmu_unmap_user_page`: exactly this virtual page goes; the merge never happens. */
    method UnmapUserPage(c: nat, full: Path) returns (was: bool)
      requires Valid() && c in ctxs && PathOk(full, 4)
      modifies this`pool, this`ctxs, this`tables, this`shape, this`eager
      ensures Valid()
      ensures was <==> full in old(eager)[c]
      ensures eager == EagerUnmapped(old(eager), c, full)
      ensures pool == old(pool) && ctxs == old(ctxs)
    {
      var l3 := FindPte(c, full, false, 0);
      if l3 == 0 {
        assert eager[c] - {full} == eager[c];
        return false;
      }
      ghost var w := W();
      Prefixes(full);
      TableLeaf(w, shape, c, l3, full[..3], full[3]);
      LeafPage(w, shape, c, full);
      was := tables[l3][full[3]] != Invalid;
      if was {
        ClearPage(w, shape, c, l3, full[..3], full[3]);
        tables := tables[l3 := tables[l3][full[3] := Invalid]];
        eager := EagerUnmapped(eager, c, full);
        assert W() == ClearedPage(w, c, l3, full[..3], full[3]);
        assert !tables[l3][full[3]].Full?;
        var all := MergeScan(tables[l3], 0x1000, 0x20_0000);
        if all {
          assert false;                // the entry just cleared stops the scan
        }
      } else {
        assert eager[c] - {full} == eager[c];
      }
    }

    // ------------------------------------------------------------ contexts

    /**
     `mmu_context_create`: `h` is the new handle, or 0 when no memory was left for it.
     It fails exactly when there is no memory, no page or no ASID, and then nothing is lost.
     */
    method ContextCreate(h: nat) returns (ok: bool)
      requires Valid() && h !in ctxs
      modifies this
      ensures Valid() && outside == old(outside) && all == old(all)
      ensures ok <==> h != 0 && old(pool).free != [] && exists a :: 1 <= a <= ASID_MAX && !old(asids)[a]
      ensures !ok ==> W() == old(W()) && shape == old(shape)
      ensures ok ==> eager == old(eager)[h := map[]] && h in ctxs
      ensures ok ==> ctxs == old(ctxs)[h := Context(ctxs[h].root, ctxs[h].asid, [ctxs[h].root])]
      ensures ok ==> W().s == Created(old(W()).s, h, ctxs[h].asid, old(pool).Alloc().1)
      ensures ok ==> pool == old(pool).Alloc().0 && ctxs[h].root == old(pool).Alloc().1 && shape == Rooted(old(shape), h, ctxs[h].root)
    {
      if h == 0 {
        return false;
      }
      ghost var w := W();
      var (pool', root) := pool.Alloc();
      if root == 0 {
        return false;
      }
      pool := pool';
      var asid := AsidAlloc();
      if asid == 0 {
        pool := pool.Free(root);
        AllocThenFree(w.pool);
        return false;
      }
      CreateContext(w, shape, h, asid);
      Install(h, root, asid);
      assert W() == CreatedContext(w, h, asid);
      ok := true;
    }

    /** The field assignments of `mmu_context_create`. */
    method Install(h: nat, root: int, asid: nat)
      requires h !in ctxs && root != 0
      modifies this`ctxs, this`tables, this`shape, this`eager
      ensures ctxs == old(ctxs)[h := Context(root, asid, [root])]
      ensures tables == old(tables)[root := EmptyTable()]
      ensures shape == Rooted(old(shape), h, root) && eager == old(eager)[h := map[]]
    {
      ctxs := ctxs[h := Context(root, asid, [])];
      var added := AddPage(h, root);
      assert [] + [root] == [root];
      tables := tables[root := EmptyTable()];
      shape := Rooted(shape, h, root);
      eager := eager[h := map[]];
    }

    /** `mmu_context_release`: the whole ledger is returned, from its end. */
    method ContextRelease(c: nat)
      requires Valid() && c in ctxs
      modifies this
      ensures Valid() && outside == old(outside) && all == old(all)
      ensures ctxs == old(ctxs) - {c} && eager == old(eager) - {c}
      ensures pool == FreeAll(old(pool), old(ctxs)[c].pages)
    {
      ReleaseContext(W(), shape, c);
      var owned := ctxs[c].pages;
      var asid := ctxs[c].asid;
      Discard(c, owned, asid);
      shape := Pruned(shape, c);
    }

    method Discard(c: nat, owned: seq<int>, asid: nat)
      requires pool.Valid() && c in ctxs && |asids| == ASID_MAX + 1 && 1 <= asid <= ASID_MAX
      requires owned == ctxs[c].pages && asid == ctxs[c].asid
      modifies this`pool, this`ctxs, this`asids, this`eager
      ensures W() == ReleasedContext(old(W()), c)
    {
      ctxs := ctxs[c := ctxs[c].(pages := [])];
      FreeOwned(owned);
      AsidFree(asid);
      AddRemove(old(ctxs), c, ctxs[c]);
      ctxs := ctxs - {c};
      eager := eager - {c};
    }

    method FreeOwned(owned: seq<int>)
      requires pool.Valid()
      modifies this`pool
      ensures pool.Valid() && pool == FreeAll(old(pool), owned)
    {
      var n := |owned|;
      assert owned[..n] == owned;
      while n > 0
        invariant 0 <= n <= |owned| && pool.Valid()
        invariant FreeAll(pool, owned[..n]) == FreeAll(old(pool), owned)
      {
        assert owned[..n][..n - 1] == owned[..n - 1];
        n := n - 1;
        if owned[n] != 0 {
          pool := pool.Free(owned[n]);
        }
      }
    }

    /**
     One page of `mmu_unmap_user_range`: the table is found by the page's address, but it is the
     table's first entry that is cleared and its page that loses a reference.
     */
    method ClearFirst(c: nat, full: Path)
      requires Valid() && c in ctxs && PathOk(full, 4)
      modifies this`pool, this`ctxs, this`tables, this`shape, this`eager
      ensures Valid() && ctxs.Keys == old(ctxs).Keys
      ensures eager == EagerUnmapped(old(eager), c, FirstOf(full))
      ensures var e := Leaf(old(W()).s, c, FirstOf(full));
        if e.Full? then pool == old(pool).Free(e.pa) && ctxs == Untracked(old(ctxs), c, e.pa) else pool == old(pool) && ctxs == old(ctxs)
    {
      ghost var first := FirstOf(full);
      LeafPage(W(), shape, c, first);
      assert Beside(first, full);
      var l3 := FindPte(c, full, false, 0);
      if l3 == 0 {
        assert eager[c] - {first} == eager[c];
        return;
      }
      ghost var w := W();
      TableLeaf(w, shape, c, l3, full[..3], 0);
      if tables[l3][0] == Invalid {
        assert eager[c] - {first} == eager[c];
        return;
      }
      var pa := tables[l3][0].pa;
      ClearPage(w, shape, c, l3, full[..3], 0);
      ClearedUnmapped(w, shape, c, l3, full[..3], 0);
      tables := tables[l3 := tables[l3][0 := Invalid]];
      eager := EagerUnmapped(eager, c, first);
      assert W() == ClearedPage(w, c, l3, full[..3], 0);
      DropOwned(c, pa);
    }

    /**
     `mmu_unmap_user_range`: of every two megabytes the range touches, the first page goes and
     no other.
     */
    method UnmapRange(c: nat, va: Word, len: Word)
      requires Valid() && c in ctxs
      modifies this`pool, this`ctxs, this`tables, this`shape, this`eager
      ensures Valid() && ctxs.Keys == old(ctxs).Keys
      ensures eager == RangeUnmapped(old(eager), c, va, len)
    {
      if len == 0 {
        ClearedNone(eager, c, AlignDown(va));
        return;
      }
      var start, end := AlignDown(va), AlignDown(Plus(Plus(va, len), PAGE_SIZE - 1));
      ClearPages(c, start, end);
    }

    /** The loop of `mmu_unmap_user_range`. */
    method ClearPages(c: nat, start: nat, end: nat)
      requires Valid() && c in ctxs && start % PAGE_SIZE == 0 && end % PAGE_SIZE == 0
      modifies this`pool, this`ctxs, this`tables, this`shape, this`eager
      ensures Valid() && ctxs.Keys == old(ctxs).Keys
      ensures eager == old(eager)[c := Cleared(old(eager)[c], start, if end < start then start else end)]
    {
      ghost var last := if end < start then start else end;
      ClearedFrom(start, eager, c, start);
      var curr := start;
      while curr < end
        invariant start <= curr <= last && curr % PAGE_SIZE == 0
        invariant Valid() && ctxs.Keys == old(ctxs).Keys && c in old(eager) && ClearedTo(start, old(eager), c, start, curr, eager)
      {
        NextPage(curr, end);
        ClearAt(start, c, curr, start, old(eager));
        curr := curr + PAGE_SIZE;
      }
      OpenCleared(start, old(eager), c, start, curr, eager);
    }

    method ClearAt(ghost n: nat, c: nat, x: nat, ghost lo: nat, ghost e: Eager)
      requires Valid() && c in ctxs && c in e && lo <= x && x % PAGE_SIZE == 0 && ClearedTo(n, e, c, lo, x, eager)
      modifies this`pool, this`ctxs, this`tables, this`shape, this`eager
      ensures Valid() && ctxs.Keys == old(ctxs).Keys && ClearedTo(n, e, c, lo, x + PAGE_SIZE, eager)
    {
      OpenCleared(n, e, c, lo, x, eager);
      RangeStep(e, c, e[c], lo, x);
      ClearFirst(c, PathOf(x));
      OpenCleared(n, e, c, lo, x + PAGE_SIZE, eager);
    }

    // ------------------------------------------------------------ clone

    /** A level-3 entry of `mmu_clone_walk_locked`: track, count, then mark both copy-on-write. */
    method CloneLeafEntry(src: nat, dst: nat, ts: int, td: int, i: nat, ghost path: Path,
                          ghost w0: World, ghost sh0: Shape, ghost plan: Plan) returns (ok: bool)
      requires Valid() && Progress(w0, sh0, W(), shape, src, dst, ts, td, path, i)
      requires Tally(plan, W(), shape, src, dst, path, i)
      requires |path| == 3 && i < ENTRIES && tables[ts][i].Full?
      modifies this`pool, this`ctxs, this`tables, this`shape, this`eager
      ensures Valid() && ok && Progress(w0, sh0, W(), shape, src, dst, ts, td, path, i + 1)
      ensures Tally(plan, W(), shape, src, dst, path, i + 1)
    {
      ghost var w, sh := W(), shape;
      AtEntry(w0, sh0, w, sh, src, dst, ts, td, path, i);
      NotYetShared(w, sh, src, dst, ts, td, path, i);
      LeafStep(plan, w0, sh0, w, sh, src, dst, ts, td, path, i);
      ok := ShareEntry(src, dst, ts, td, i, path);
      ProgressShare(w0, sh0, w, sh, src, dst, ts, td, path, i);
      shape := Rehomed(sh, dst, w.s.tables[ts][i].pa, path + [i]);
    }

    /** Track the page, count it once more, then turn both entries copy-on-write. */
    method ShareEntry(ghost src: nat, dst: nat, ts: int, td: int, i: nat, ghost path: Path) returns (ok: bool)
      requires pool.Valid() && dst in ctxs && ts != td && src in eager && dst in eager && path + [i] in eager[src]
      requires ts in tables && td in tables && i < |tables[ts]| && i < |tables[td]|
      requires tables[ts][i].Full? && tables[ts][i].pa !in ctxs[dst].pages + [0]
      modifies this`pool, this`ctxs, this`tables, this`eager
      ensures ok <==> |old(ctxs)[dst].pages| < MAX_TRACKED
      ensures W() == if ok then ClonedPage(old(W()), src, dst, ts, td, path, i) else old(W())
    {
      var e := tables[ts][i];
      ok := AddPage(dst, e.pa);
      if !ok {
        return;
      }
      pool := pool.RefInc(e.pa);
      tables := tables[td := tables[td][i := Cow(e)]];
      tables := tables[ts := tables[ts][i := Cow(e)]];
      eager := EagerShared(eager, src, dst, path + [i]);
    }

    /** A table entry of `mmu_clone_walk_locked`: a new table for the clone, then the subtree. */
    method CloneTableEntry(src: nat, dst: nat, ts: int, td: int, i: nat, level: nat, ghost path: Path,
                           ghost w0: World, ghost sh0: Shape, ghost plan: Plan) returns (ok: bool)
      requires Valid() && Progress(w0, sh0, W(), shape, src, dst, ts, td, path, i)
      requires Tally(plan, W(), shape, src, dst, path, i)
      requires level == |path| < 3 && i < ENTRIES && tables[ts][i].Full?
      modifies this`pool, this`ctxs, this`tables, this`shape, this`eager
      ensures Valid()
      ensures ok ==> Progress(w0, sh0, W(), shape, src, dst, ts, td, path, i + 1)
      ensures ok ==> Tally(plan, W(), shape, src, dst, path, i + 1)
      ensures !ok ==> Stopped(w0, sh0, W(), shape, src, dst, path) && plan.budget < |plan.tables| && Halted(plan, eager, src)
      decreases 3 - level, 0
    {
      ghost var w, sh := W(), shape;
      var e := tables[ts][i];
      var q := HangClone(src, dst, ts, td, i, path, w0, sh0, plan);
      if q == 0 {
        return false;
      }
      ok := CloneWalk(src, dst, e.pa, q, level + 1, path + [i], plan);
      if ok {
        JoinStep(plan, w0, sh0, w, sh, W(), shape, src, dst, ts, td, path, i, e.pa);
      } else {
        StopJoin(w0, sh0, w, sh, W(), shape, src, dst, ts, td, path, i);
      }
    }

    /** A new table for the clone, in the place of its parent's. */
    method HangClone(src: nat, dst: nat, ts: int, td: int, i: nat, ghost path: Path,
                     ghost w0: World, ghost sh0: Shape, ghost plan: Plan) returns (q: int)
      requires Valid() && Progress(w0, sh0, W(), shape, src, dst, ts, td, path, i)
      requires Tally(plan, W(), shape, src, dst, path, i)
      requires |path| < 3 && i < ENTRIES && tables[ts][i].Full?
      modifies this`pool, this`ctxs, this`tables, this`shape
      ensures Valid()
      ensures q == 0 ==> Stopped(w0, sh0, W(), shape, src, dst, path) && plan.budget < |plan.tables| && Halted(plan, eager, src)
      ensures q != 0 ==> CanTake(old(W()), dst) && q == old(pool).Alloc().1 && q !in old(shape).place && q != td
      ensures q != 0 ==> W() == TableHung(old(W()), dst, td, i, old(tables)[ts][i].attrs) && shape == Linked(old(shape), td, i, q)
      ensures q != 0 ==> Progress(W(), shape, W(), shape, src, dst, old(tables)[ts][i].pa, q, path + [i], 0)
      ensures q != 0 ==> Tally(plan, W(), shape, src, dst, path + [i], 0)
    {
      TableStep(plan, w0, sh0, W(), shape, src, dst, ts, td, path, i);
      q := TakeAndHang(dst, td, i, tables[ts][i].attrs);
    }

    /** A zeroed page of `dst`, entered at index `i` of `td`. */
    method TakeAndHang(dst: nat, td: int, i: nat, attrs: Attrs) returns (q: int)
      requires Valid() && dst in ctxs && td in tables && i < |tables[td]| && td in shape.place
      requires CanTake(W(), dst) ==> pool.Alloc().1 != td
      modifies this`pool, this`ctxs, this`tables, this`shape
      ensures q == 0 <==> !CanTake(old(W()), dst)
      ensures q == 0 ==> W() == old(W()) && shape == old(shape)
      ensures q != 0 ==> q == old(pool).Alloc().1 && W() == TableHung(old(W()), dst, td, i, attrs) && shape == Linked(old(shape), td, i, q)
    {
      q := AllocSubTable(dst, 0);
      if q != 0 {
        Hang(td, i, q, attrs);
      }
    }

    /** One iteration of `mmu_clone_walk_locked`. */
    method CloneEntry(src: nat, dst: nat, ts: int, td: int, i: nat, level: nat, ghost path: Path,
                      ghost w0: World, ghost sh0: Shape, ghost plan: Plan) returns (ok: bool)
      requires Valid() && Progress(w0, sh0, W(), shape, src, dst, ts, td, path, i)
      requires Tally(plan, W(), shape, src, dst, path, i)
      requires level == |path| && i < ENTRIES
      modifies this`pool, this`ctxs, this`tables, this`shape, this`eager
      ensures Valid()
      ensures ok ==> Progress(w0, sh0, W(), shape, src, dst, ts, td, path, i + 1)
      ensures ok ==> Tally(plan, W(), shape, src, dst, path, i + 1)
      ensures !ok ==> Stopped(w0, sh0, W(), shape, src, dst, path) && plan.budget < |plan.tables| && Halted(plan, eager, src)
      decreases 3 - level, 1
    {
      NoBlock(w0, sh0, W(), shape, src, dst, ts, td, path, i);
      if tables[ts][i] == Invalid {
        ProgressSkip(w0, sh0, W(), shape, src, dst, ts, td, path, i);
        SkipStep(plan, w0, sh0, W(), shape, src, dst, ts, td, path, i);
        return true;
      }
      if level < 3 {
        ok := CloneTableEntry(src, dst, ts, td, i, level, path, w0, sh0, plan);
      } else {
        ok := CloneLeafEntry(src, dst, ts, td, i, path, w0, sh0, plan);
      }
    }

    /** `mmu_clone_walk_locked`: it fails only for want of pages, never for want of room in the ledger. */
    method CloneWalk(src: nat, dst: nat, ts: int, td: int, level: nat, ghost path: Path,
                     ghost plan: Plan) returns (ok: bool)
      requires Valid() && Progress(W(), shape, W(), shape, src, dst, ts, td, path, 0) && level == |path|
      requires Tally(plan, W(), shape, src, dst, path, 0)
      modifies this`pool, this`ctxs, this`tables, this`shape, this`eager
      ensures Valid()
      ensures ok ==> Progress(old(W()), old(shape), W(), shape, src, dst, ts, td, path, ENTRIES)
      ensures ok ==> Tally(plan, W(), shape, src, dst, path, ENTRIES)
      ensures !ok ==> Stopped(old(W()), old(shape), W(), shape, src, dst, path) && plan.budget < |plan.tables| && Halted(plan, eager, src)
      decreases 3 - level, 2
    {
      ghost var w0, sh0 := W(), shape;
      var i := 0;
      while i < ENTRIES
        invariant 0 <= i <= ENTRIES && Valid()
        invariant Progress(w0, sh0, W(), shape, src, dst, ts, td, path, i)
        invariant Tally(plan, W(), shape, src, dst, path, i)
      {
        ok := CloneEntry(src, dst, ts, td, i, level, path, w0, sh0, plan);
        if !ok {
          return;
        }
        i := i + 1;
      }
      ok := true;
    }

    /**
     `mmu_context_clone`: the clone reads what its parent reads, and no third party can tell.
     It succeeds exactly when there is memory for the handle, a free ASID, and a free page
     for each of the parent's tables; a clone that fails part way gives everything back.
     Every page of the parent that was visited, read-only or not, may be written from then on:
     all of them if the clone succeeds, those before the table it halted at if it does not,
     and none if it never began.
     */
    method ContextClone(src: nat, h: nat) returns (ok: bool)
      requires Valid() && src in ctxs && h !in ctxs
      modifies this
      ensures Valid() && outside == old(outside) && all == old(all)
      ensures ok <==> CanClone(old(W()), src, h)
      ensures ok ==> eager == old(eager)[src := AllShared(old(eager)[src])][h := AllShared(old(eager)[src])]
      ensures ok ==> |pool.free| + |TablesUnder(old(W()).s, src)| == |old(pool).free|
      ensures ok ==> h in ctxs && ctxs == old(ctxs)[h := ctxs[h]]
      ensures ok ==> AllCow(LeavesOf(old(W()).s, src, old(eager)[src].Keys), W().s, src, h)
      ensures !ok ==> eager == old(eager)[src := SharedOn(old(eager)[src], RefusedMarks(old(W()), src, h))]
      ensures !Begins(old(W()), h) ==> W() == old(W())
      ensures !ok ==> ctxs == old(ctxs) && pool.refs == old(pool).refs
      ensures !ok ==> forall a :: 1 <= a <= ASID_MAX ==> asids[a] == old(asids)[a]
    {
      ghost var w, sh := W(), shape;
      CloneNeeds(w, sh, src, h);
      ok := ContextCreate(h);
      if !ok {
        NothingMarked(w, src, h);
        return;
      }
      SamePlan(w, sh, W(), src, h, ctxs[h].asid);
      ok := CloneCreated(src, h, PlanOf(w, sh, src, |w.pool.free|), w, sh);
      if !ok {
        HaltMeans(w, sh, src, h, PlanOf(w, sh, src, |w.pool.free|), eager[src]);
      }
    }

    /** The new context is empty: the walk may begin. */
    method CloneCreated(src: nat, h: nat, ghost plan: Plan, ghost w: World, ghost sh: Shape) returns (ok: bool)
      requires Valid() && Good(w, sh) && src in w.s.ctxs && src in w.eager && h !in w.s.ctxs && h in ctxs && w.pool.free != []
      requires W().s == Created(w.s, h, ctxs[h].asid, ctxs[h].root) && eager == w.eager[h := map[]]
      requires outside == w.outside && all == w.all && src in eager && src in ctxs && plan == PlanOf(W(), shape, src, |pool.free| + 1)
      modifies this
      ensures Valid() && outside == w.outside && all == w.all
      ensures ok ==> |plan.tables| + |pool.free| == plan.budget && h in ctxs && ctxs == w.s.ctxs[h := ctxs[h]]
      ensures ok ==> AllCow(plan.leaves, W().s, src, h)
      ensures ok ==> eager == w.eager[src := AllShared(w.eager[src])][h := AllShared(w.eager[src])]
      ensures !ok ==> plan.budget < |plan.tables| && Halted(plan, eager, src) && SomeMarked(w.eager[src], eager[src])
      ensures !ok ==> eager == w.eager[src := eager[src]] && ctxs == w.s.ctxs && pool.refs == w.pool.refs
      ensures !ok ==> forall a :: 1 <= a <= ASID_MAX ==> asids[a] == w.asids[a]
    {
      CloneStart(w, sh, W(), shape, src, h, ctxs[h].root);
      TallyStart(W(), shape, src, h);
      ok := CloneNew(src, h, plan, w, sh);
    }

    /** The rest of `mmu_context_clone`, once the new context exists; `w` is the state before it did. */
    method CloneNew(src: nat, h: nat, ghost plan: Plan, ghost w: World, ghost sh: Shape) returns (ok: bool)
      requires Valid() && Good(w, sh) && src in w.s.ctxs && h !in w.s.ctxs && h in ctxs && src in ctxs && src in eager
      requires ctxs == w.s.ctxs[h := ctxs[h]] && eager == w.eager[h := map[]] && outside == w.outside && all == w.all
      requires Progress(W(), shape, W(), shape, src, h, ctxs[src].root, ctxs[h].root, [], 0)
      requires Tally(plan, W(), shape, src, h, [], 0)
      modifies this
      ensures Valid() && outside == w.outside && all == w.all
      ensures ok ==> |plan.tables| + |pool.free| == plan.budget && h in ctxs && ctxs == w.s.ctxs[h := ctxs[h]]
      ensures ok ==> AllCow(plan.leaves, W().s, src, h)
      ensures ok ==> eager == w.eager[src := AllShared(w.eager[src])][h := AllShared(w.eager[src])]
      ensures !ok ==> plan.budget < |plan.tables| && Halted(plan, eager, src) && SomeMarked(w.eager[src], eager[src])
      ensures !ok ==> eager == w.eager[src := eager[src]] && ctxs == w.s.ctxs && pool.refs == w.pool.refs
      ensures !ok ==> forall a :: 1 <= a <= ASID_MAX ==> asids[a] == w.asids[a]
    {
      ghost var marked := AllShared(eager[src]);
      AddRemove(w.s.ctxs, h, ctxs[h]);
      AddRemove(w.eager, h, map[]);
      Rewritten(w.eager, h, map[], src, marked);
      ok := CloneInto(src, h, plan);
      if ok {
        AgainOver(w.s.ctxs, h, old(ctxs)[h], ctxs[h]);
      } else {
        CountsDetermined(w, sh, W(), shape);
      }
    }

    /** The walk between two roots, undone by a release when it fails. */
    method CloneInto(src: nat, dst: nat, ghost plan: Plan) returns (ok: bool)
      requires Valid() && src in ctxs && dst in ctxs && src != dst && src in eager
      requires Progress(W(), shape, W(), shape, src, dst, ctxs[src].root, ctxs[dst].root, [], 0)
      requires Tally(plan, W(), shape, src, dst, [], 0)
      modifies this
      ensures Valid() && outside == old(outside) && all == old(all)
      ensures ok ==> eager == old(eager)[src := AllShared(old(eager)[src])][dst := AllShared(old(eager)[src])]
      ensures ok ==> |plan.tables| + |pool.free| == plan.budget && dst in ctxs && ctxs == old(ctxs)[dst := ctxs[dst]]
      ensures ok ==> AllCow(plan.leaves, W().s, src, dst)
      ensures !ok ==> plan.budget < |plan.tables| && Halted(plan, eager, src) && SomeMarked(old(eager)[src], eager[src])
      ensures !ok ==> eager == (old(eager) - {dst})[src := eager[src]] && ctxs == old(ctxs) - {dst}
    {
      ok := CloneRoots(src, dst, plan);
      if !ok {
        ghost var m := eager[src];
        ContextRelease(dst);
        assert eager[src] == m;
      }
    }

    method CloneRoots(src: nat, dst: nat, ghost plan: Plan) returns (ok: bool)
      requires Valid() && src in ctxs && dst in ctxs && src != dst && src in eager
      requires Progress(W(), shape, W(), shape, src, dst, ctxs[src].root, ctxs[dst].root, [], 0)
      requires Tally(plan, W(), shape, src, dst, [], 0)
      modifies this`pool, this`ctxs, this`tables, this`shape, this`eager
      ensures Valid() && dst in ctxs && src in ctxs
      ensures ok ==> eager == old(eager)[src := AllShared(old(eager)[src])][dst := AllShared(old(eager)[src])]
      ensures ok ==> |plan.tables| + |pool.free| == plan.budget && ctxs == old(ctxs)[dst := ctxs[dst]]
      ensures ok ==> AllCow(plan.leaves, W().s, src, dst)
      ensures !ok ==> plan.budget < |plan.tables| && Halted(plan, eager, src) && SomeMarked(old(eager)[src], eager[src])
      ensures !ok ==> eager - {dst} == (old(eager) - {dst})[src := eager[src]] && ctxs - {dst} == old(ctxs) - {dst}
    {
      ghost var w0, sh0 := W(), shape;
      var ts, td := ctxs[src].root, ctxs[dst].root;
      ok := CloneWalk(src, dst, ts, td, 0, [], plan);
      if ok {
        CloneDone(w0, sh0, W(), shape, src, dst, ts, td);
        TallyDone(plan, W(), shape, src, dst);
      } else {
        CloneStopped(w0, sh0, W(), shape, src, dst);
      }
    }

    // ------------------------------------------------------------ walks

    /** One level of `mmu_resolve_user_page_desc`: 0 unless the entry is a valid table. */
    method TableUnder(c: nat, t: int, i: nat, ghost path: Path) returns (q: int)
      requires Valid() && Table(W(), shape, c, t, path) && |path| < 3 && i < ENTRIES
      ensures q != 0 ==> Table(W(), shape, c, q, path + [i])
      ensures q == 0 ==> forall full :: PathOk(full, 4) && path + [i] <= full ==> full !in eager[c]
    {
      EntryTable(W(), shape, c, t, path, i);
      if tables[t][i].Full? {
        return tables[t][i].pa;
      }
      forall full | PathOk(full, 4) && path + [i] <= full ensures full !in eager[c] {
        NoneUnder(W(), shape, c, t, path, i, full);
      }
      q := 0;
    }

    /** `mmu_resolve_user_page_desc`: the level-3 table that holds the entry for `full`. */
    method ResolveDesc(c: nat, full: Path) returns (l3: int)
      requires Valid() && c in ctxs && PathOk(full, 4)
      ensures l3 == 0 ==> full !in eager[c]
      ensures l3 != 0 ==> Table(W(), shape, c, l3, full[..3])
      ensures l3 != 0 ==> tables[l3][full[3]] == Leaf(W().s, c, full)
    {
      Prefixes(full);
      RootTable(W(), shape, c);
      var l1 := TableUnder(c, ctxs[c].root, full[0], []);
      if l1 == 0 {
        return 0;
      }
      var l2 := TableUnder(c, l1, full[1], full[..1]);
      if l2 == 0 {
        return 0;
      }
      l3 := TableUnder(c, l2, full[2], full[..2]);
      if l3 != 0 {
        TableLeaf(W(), shape, c, l3, full[..3], full[3]);
      }
    }

    /** `mmu_resolve_user_page`: the page and flags mapped at `full`, or `Invalid`. */
    method ResolvePage(c: nat, full: Path) returns (e: Desc)
      requires Valid() && c in ctxs && PathOk(full, 4)
      ensures e == Invalid || e.Full?
      ensures e.Full? <==> full in eager[c]
      ensures e.Full? ==> e == Leaf(W().s, c, full) && e.pa in frames && eager[c][full] == UserPage(frames[e.pa], RightsOf(e.attrs))
    {
      var l3 := ResolveDesc(c, full);
      if l3 == 0 {
        return Invalid;
      }
      LeafPage(W(), shape, c, full);
      e := tables[l3][full[3]];
      if !e.Full? {
        e := Invalid;
      }
    }

    // ------------------------------------------------------------ faults

    /** `page_alloc`, the fill of the new page, then `mmu_context_add_page_locked`. */
    method TakeFilled(c: nat, b: Bytes) returns (q: int)
      requires Valid() && c in ctxs && |b| == PAGE_SIZE
      modifies this`pool, this`ctxs, this`frames
      ensures Valid()
      ensures q == 0 <==> !CanTake(old(W()), c)
      ensures q == 0 ==> pool == old(pool) && ctxs == old(ctxs)
      ensures q != 0 ==> Pending(W().s, shape, c, q) && W() == TakenFrame(old(W()), c, b) && q == old(pool).Alloc().1
    {
      ghost var w := W();
      var (pool', pa) := pool.Alloc();
      if pa == 0 {
        return 0;
      }
      FreshPage(w, shape, pa);
      pool := pool';
      frames := frames[pa := b];
      var ok := AddPage(c, pa);
      if !ok {
        pool := pool.Free(pa);
        AllocThenFree(w.pool);
        FillFree(w, shape, pa, b);
        return 0;
      }
      assert W() == TakenFrame(w, c, b);
      TakeFrame(w, shape, c, b);
      q := pa;
    }

    /** `mmu_context_remove_page_locked` followed by `page_free` or `page_ref_dec`. */
    method DropOwned(c: nat, q: int)
      requires Valid() && c in ctxs && q in ctxs[c].pages && q != 0 && UnmappedIn(W().s, shape, c, q)
      modifies this`pool, this`ctxs
      ensures Valid() && W() == Dropped(old(W()), c, q)
    {
      DropPage(W(), shape, c, q);
      var removed := RemovePage(c, q);
      pool := pool.RefDec(q);
    }

    /**
     A permission fault (fault status 0x0C to 0x0F).  It succeeds exactly when the entry is
     valid, read-only and copy-on-write and, if others share the page, a page for the copy
     can be had; afterwards the entry is writable.  No address space can tell.
     */
    method CowFault(c: nat, full: Path) returns (ok: bool)
      requires Valid() && c in ctxs && PathOk(full, 4)
      modifies this`pool, this`ctxs, this`tables, this`frames, this`shape
      ensures Valid() && ctxs.Keys == old(ctxs).Keys
      ensures ok <==> CowReady(old(W()), c, full)
      ensures ok ==> Writable(Leaf(W().s, c, full), Leaf(old(W()).s, c, full))
      ensures !ok ==> pool == old(pool) && ctxs == old(ctxs) && tables == old(tables)
      ensures !(Leaf(old(W()).s, c, full).Full? && Leaf(old(W()).s, c, full).attrs.cow) ==> W() == old(W()) && shape == old(shape)
    {
      var l3 := ResolveDesc(c, full);
      LeafPage(W(), shape, c, full);
      if l3 == 0 {
        return false;
      }
      var e := tables[l3][full[3]];
      if e == Invalid || !e.attrs.ro || !e.attrs.cow {
        return false;
      }
      if pool.RefGet(e.pa) == 1 {
        UpgradeEntry(c, l3, full);
        return true;
      }
      ok := CopyEntry(c, l3, full);
    }

    /** Nobody else references the page: the entry becomes writable in place. */
    method UpgradeEntry(c: nat, l3: int, full: Path)
      requires Valid() && c in ctxs && PathOk(full, 4) && Table(W(), shape, c, l3, full[..3])
      requires tables[l3][full[3]].Full? && tables[l3][full[3]].attrs.cow && pool.RefGet(tables[l3][full[3]].pa) == 1
      modifies this`tables
      ensures Valid() && Leaf(W().s, c, full) == Upgraded(old(tables)[l3][full[3]])
    {
      Prefixes(full);
      ghost var w := W();
      UpgradePage(w, shape, c, l3, full[..3], full[3]);
      var e := tables[l3][full[3]];
      tables := tables[l3 := tables[l3][full[3] := Upgraded(e)]];
      assert W() == UpgradedPage(w, l3, full[3]);
      TableLeaf(W(), shape, c, l3, full[..3], full[3]);
    }

    /** Others share the page: copy it, track the copy, swap the entry, let the old page go. */
    method CopyEntry(c: nat, l3: int, full: Path) returns (ok: bool)
      requires Valid() && c in ctxs && PathOk(full, 4) && Table(W(), shape, c, l3, full[..3])
      requires tables[l3][full[3]].Full? && tables[l3][full[3]].attrs.cow && tables[l3][full[3]] == Leaf(W().s, c, full)
      modifies this`pool, this`ctxs, this`tables, this`frames, this`shape
      ensures Valid() && ctxs.Keys == old(ctxs).Keys
      ensures ok <==> CanTake(old(W()), c)
      ensures ok ==> Writable(Leaf(W().s, c, full), old(tables)[l3][full[3]])
      ensures !ok ==> pool == old(pool) && ctxs == old(ctxs) && tables == old(tables)
    {
      LeafPage(W(), shape, c, full);
      var e := tables[l3][full[3]];
      var q := TakeFilled(c, frames[e.pa]);
      if q == 0 {
        return false;
      }
      ReplaceEntry(c, l3, full, q);
      DropOwned(c, e.pa);
      Prefixes(full);
      TableLeaf(W(), shape, c, l3, full[..3], full[3]);
      ok := true;
    }

    method ReplaceEntry(c: nat, l3: int, full: Path, q: int)
      requires Valid() && c in ctxs && PathOk(full, 4) && Table(W(), shape, c, l3, full[..3])
      requires tables[l3][full[3]].Full? && tables[l3][full[3]].pa in ctxs[c].pages && tables[l3][full[3]].pa != 0
      requires Pending(W().s, shape, c, q) && full in eager[c] && eager[c][full] == UserPage(frames[q], RightsOf(Replaced(tables[l3][full[3]], q).attrs))
      modifies this`tables, this`shape
      ensures Valid() && Table(W(), shape, c, l3, full[..3])
      ensures tables == old(tables)[l3 := old(tables)[l3][full[3] := Replaced(old(tables)[l3][full[3]], q)]]
      ensures UnmappedIn(W().s, shape, c, old(tables)[l3][full[3]].pa)
    {
      Prefixes(full);
      ghost var w, sh := W(), shape;
      var e := Replaced(tables[l3][full[3]], q);
      EntryTable(w, sh, c, l3, full[..3], full[3]);
      MapPage(w, sh, c, l3, full[..3], full[3], q, e.attrs);
      ReplacedUnmapped(w, sh, c, l3, full[..3], full[3], q, e.attrs);
      tables := tables[l3 := tables[l3][full[3] := e]];
      shape := Rehomed(sh, c, q, full);
      SameEager(w.eager, c, full);
      assert W() == MappedPage(w, c, l3, full[..3], full[3], q, e.attrs);
    }

    /** A fresh page with these bytes at `full`, or no change any address space can see. */
    method MapFresh(c: nat, full: Path, b: Bytes, attrs: Attrs) returns (ok: bool)
      requires Valid() && c in ctxs && PathOk(full, 4) && |b| == PAGE_SIZE
      modifies this`pool, this`ctxs, this`tables, this`frames, this`shape, this`eager
      ensures Valid() && ctxs.Keys == old(ctxs).Keys
      ensures eager == if ok then EagerMapped(old(eager), c, full, UserPage(b, RightsOf(attrs))) else old(eager)
      ensures ok ==> Leaf(W().s, c, full).Full? && Leaf(W().s, c, full).attrs == NonGlobal(attrs)
      ensures ok ==> pool.RefGet(Leaf(W().s, c, full).pa) == 1
      ensures ok <==> Lack(old(W()), c, old(ctxs)[c].root, full[..3]) < 0
      ensures ok ==> Charged(old(W()), W(), c, full)
    {
      var q := TakeFilled(c, b);
      if q == 0 {
        return false;
      }
      FrameLack(old(W()), c, b, full[..3]);
      ok := MapUserPage(c, full, q, attrs);
      if !ok {
        DropOwned(c, q);
      }
    }

    /**
     A translation fault (fault status 0x04 to 0x07).  A page already there is success;
     otherwise the page becomes what `FaultFill` says or nothing changes.
     */
    method TranslationFault(c: nat, regions: seq<Region>, brk: nat, va: nat) returns (ok: bool)
      requires Valid() && c in ctxs
      modifies this`pool, this`ctxs, this`tables, this`frames, this`shape, this`eager
      ensures Valid() && ctxs.Keys == old(ctxs).Keys
      ensures eager == if ok then FaultedIn(old(eager), c, regions, brk, va) else old(eager)
      ensures ok ==> PathOf(va) in eager[c]
      ensures PathOf(va) in old(eager)[c] ==> W() == old(W())
      ensures ok <==> FaultReady(old(W()), c, regions, brk, va)
      ensures ok && PathOf(va) !in old(eager)[c] ==> FilledIn(W(), c, regions, brk, va) && Charged(old(W()), W(), c, PathOf(va))
    {
      var e := ResolvePage(c, PathOf(va));
      if e.Full? {
        return true;
      }
      var fill := FillFor(regions, brk, va);
      if fill.None? {
        return false;
      }
      PathOfPage(va);
      ok := MapFresh(c, PathOf(PageOf(va)), fill.value.bytes, fill.value.attrs);
    }

    /** `mmu_handle_process_page_fault`, by fault status. */
    method HandleFault(c: nat, regions: seq<Region>, brk: nat, far: nat, esr: nat) returns (ok: bool)
      requires Valid() && c in ctxs
      modifies this`pool, this`ctxs, this`tables, this`frames, this`shape, this`eager
      ensures Valid() && ctxs.Keys == old(ctxs).Keys
      ensures eager == if ok && TranslationStatus(esr) then FaultedIn(old(eager), c, regions, brk, far) else old(eager)
      ensures ok ==> TranslationStatus(esr) || PermissionStatus(esr)
      ensures ok && TranslationStatus(esr) ==> PathOf(far) in eager[c]
      ensures TranslationStatus(esr) ==> (ok <==> FaultReady(old(W()), c, regions, brk, far))
      ensures ok && TranslationStatus(esr) && PathOf(far) !in old(eager)[c] ==> FilledIn(W(), c, regions, brk, far)
      ensures PermissionStatus(esr) ==> (ok <==> CowReady(old(W()), c, PathOf(far)))
      ensures ok && PermissionStatus(esr) ==> Writable(Leaf(W().s, c, PathOf(far)), Leaf(old(W()).s, c, PathOf(far)))
    {
      FaultKinds(esr);
      if FaultType(esr) == 0xC {
        ok := CowFault(c, PathOf(far));
        return;
      }
      if FaultType(esr) == 4 {
        ok := TranslationFault(c, regions, brk, far);
        return;
      }
      ok := false;
    }

    // ------------------------------------------------------------ access

    /**
     One locked region of `mmu_copy_user_range`: at most one page, and only as far as the
     entry allows.  A user program's own store that reaches the page is the same step.
     */
    method CopyChunk(c: nat, va: nat, buf: Bytes, write: bool) returns (r: Access, out: Bytes)
      requires Valid() && c in ctxs
      modifies this`frames, this`eager
      ensures Valid()
      ensures r.Missing? <==> PathOf(va) !in old(eager)[c]
      ensures r.Denied? <==> PathOf(va) in old(eager)[c] && !Allowed(Leaf(W().s, c, PathOf(va)), write)
      ensures r.Done? ==> |old(eager)[c][PathOf(va)].bytes| == PAGE_SIZE
      ensures !(r.Done? && write) ==> W() == old(W())
      ensures r.Done? && write ==> eager == Stored(old(eager), c, va, buf) && out == buf
      ensures r.Done? && !write ==> out == Loaded(eager, c, va, buf)
    {
      var e := ResolvePage(c, PathOf(va));
      out := buf;
      if e == Invalid {
        return Missing, out;
      }
      if !Allowed(e, write) {
        return Denied, out;
      }
      LeafPage(W(), shape, c, PathOf(va));
      var n := Chunk(va, |buf|);
      if write {
        var page := Splice(frames[e.pa], va % PAGE_SIZE, buf, 0, n);
        WritePage(W(), shape, c, PathOf(va), page);
        frames := frames[e.pa := page];
        eager := EagerStored(eager, c, PathOf(va), page);
      } else {
        out := Splice(buf, 0, frames[e.pa], va % PAGE_SIZE, n);
      }
      r := Done;
    }
  }

  /** What the fault handler fills a missing page with. */
  method FillFor(regions: seq<Region>, brk: nat, va: nat) returns (f: Option<Fill>)
    ensures f == FaultFill(regions, brk, va)
  {
    var region := FindRegion(regions, va);
    if region.Some? {
      var b := LoadPage(region.value, PageOf(va));
      return Some(Fill(b, region.value.attrs));
    }
    if !(USER_HEAP_BASE <= va < brk) && !(USER_STACK_TOP - 0x10_0000 <= va < USER_STACK_TOP) {
      return None;
    }
    f := Some(Fill(ZeroPage(), USER_ATTRS));
  }

  datatype Access = Missing | Denied | Done

  /** `mmu_user_access_allowed`. */
  predicate Allowed(e: Desc, write: bool) {
    e.Full? && if write then UserWritable(e.attrs) else UserReadable(e.attrs)
  }

  /** How much of a transfer one page takes. */
  function Chunk(va: nat, len: nat): (n: nat)
    ensures n <= len && va % PAGE_SIZE + n <= PAGE_SIZE && (len > 0 ==> n > 0)
  {
    if PAGE_SIZE - va % PAGE_SIZE > len then len else PAGE_SIZE - va % PAGE_SIZE
  }

  /** The byte loop of the copy. */
  method Splice(dst: Bytes, at: nat, src: Bytes, from: nat, n: nat) returns (r: Bytes)
    requires at + n <= |dst| && from + n <= |src|
    ensures r == dst[..at] + src[from..from + n] + dst[at + n..]
  {
    r := dst;
    for i := 0 to n
      invariant r == dst[..at] + src[from..from + i] + dst[at + i..]
    {
      assert dst[at + i..] == [dst[at + i]] + dst[at + i + 1..];
      assert src[from..from + i + 1] == src[from..from + i] + [src[from + i]];
      r := r[at + i := src[from + i]];
    }
  }

  /** The eager machine after a store of as much of `buf` as fits the page. */
  function Stored(eager: Eager, c: nat, va: nat, buf: Bytes): Eager
    requires c in eager && PathOf(va) in eager[c] && |eager[c][PathOf(va)].bytes| == PAGE_SIZE
  {
    var page, at, n := eager[c][PathOf(va)].bytes, va % PAGE_SIZE, Chunk(va, |buf|);
    EagerStored(eager, c, PathOf(va), page[..at] + buf[..n] + page[at + n..])
  }

  /** The buffer after a load of as much of it as the page holds. */
  function Loaded(eager: Eager, c: nat, va: nat, buf: Bytes): Bytes
    requires c in eager && PathOf(va) in eager[c] && |eager[c][PathOf(va)].bytes| == PAGE_SIZE
  {
    var page, at, n := eager[c][PathOf(va)].bytes, va % PAGE_SIZE, Chunk(va, |buf|);
    page[at..at + n] + buf[n..]
  }

  /** The kind of fault: bits 5:2 of the fault status. */
  function FaultType(esr: nat): nat { esr % 64 / 4 * 4 }

  /** Fault status codes, the low six bits: 4 to 7 are translation faults of levels 0 to 3, 12 to 15 permission faults. */
  predicate TranslationStatus(esr: nat) { 4 <= esr % 64 <= 7 }

  predicate PermissionStatus(esr: nat) { 12 <= esr % 64 <= 15 }

  lemma FaultKinds(esr: nat)
    ensures FaultType(esr) == 4 <==> TranslationStatus(esr)
    ensures FaultType(esr) == 0xC <==> PermissionStatus(esr)
  {
  }

  /** The page is there already, or there is something to fill it with and pages for it and its missing tables. */
  ghost predicate FaultReady(w: World, c: nat, regions: seq<Region>, brk: nat, va: nat)
    requires c in w.s.ctxs && c in w.eager
  {
    || PathOf(va) in w.eager[c]
    || (FaultFill(regions, brk, va).Some? && Lack(w, c, w.s.ctxs[c].root, PathOf(va)[..3]) < 0)
  }

  /** The page and the tables missing above it cost one free page each, and each is tracked. */
  ghost predicate Charged(w: World, w': World, c: nat, full: Path)
    requires c in w.s.ctxs && |full| == 4
  {
    && c in w'.s.ctxs && Stock(w', c) == Stock(w, c)
    && Room(w', c) == -Lack(w, c, w.s.ctxs[c].root, full[..3]) - 1
  }

  /** The new page has the permissions of what filled it and is nobody else's. */
  ghost predicate FilledIn(w: World, c: nat, regions: seq<Region>, brk: nat, va: nat)
    requires c in w.s.ctxs
  {
    && var e := Leaf(w.s, c, PathOf(va));
    && FaultFill(regions, brk, va).Some? && e.Full? && w.pool.RefGet(e.pa) == 1
    && e.attrs == NonGlobal(FaultFill(regions, brk, va).value.attrs)
  }

  /** The eager machine's answer to a translation fault. */
  ghost function FaultedIn(eager: Eager, c: nat, regions: seq<Region>, brk: nat, va: nat): Eager
    requires c in eager
  {
    if PathOf(va) in eager[c] then eager
    else
      match FaultFill(regions, brk, va)
      case Some(fill) => EagerMapped(eager, c, PathOf(va), UserPage(fill.bytes, RightsOf(fill.attrs)))
      case None => eager
  }

  lemma PathOfPage(va: nat)
    ensures PathOf(PageOf(va)) == PathOf(va)
  {
    var p := va / 0x1000;
    assert PageOf(va) == p * 0x1000;
    assert PageOf(va) / 0x20_0000 == va / 0x20_0000;
    assert PageOf(va) / 0x4000_0000 == va / 0x4000_0000;
    assert PageOf(va) / 0x80_0000_0000 == va / 0x80_0000_0000;
  }

  ghost predicate CowReady(w: World, c: nat, full: Path)
    requires c in w.s.ctxs && PathOk(full, 4)
  {
    && var e := Leaf(w.s, c, full);
    && e.Full? && e.attrs.ro && e.attrs.cow
    && (w.pool.RefGet(e.pa) == 1 || CanTake(w, c))
  }

  /** A page entry with the old flags, but writable and no longer copy-on-write. */
  ghost predicate Writable(e: Desc, was: Desc) {
    e.Full? && was.Full? && e.attrs == was.attrs.(ro := false, cow := false)
  }

  /** A page of the same level-3 table. */
  ghost predicate Beside(p: Path, full: Path) {
    PathOk(p, 4) && |full| == 4 && p[..3] == full[..3]
  }

  lemma NoneBeside(w: World, sh: Shape, c: nat, t: int, path: Path, i: nat, full: Path)
    requires Good(w, sh) && Table(w, sh, c, t, path) && |path| < 3 && i < ENTRIES
    requires w.s.tables[t][i] == Invalid && PathOk(full, 4) && path + [i] <= full
    ensures forall p :: Beside(p, full) ==> p !in w.eager[c]
  {
    forall p | Beside(p, full) ensures p !in w.eager[c] {
      assert path + [i] <= full[..3] && p[..3] <= p;
      NoneUnder(w, sh, c, t, path, i, p);
    }
  }

  // ---------------------------------------------------------------- unmapping a range

  /** The first page of the two megabytes that `full` lies in. */
  function FirstOf(full: Path): (p: Path)
    requires |full| == 4
    ensures PathOk(full, 4) ==> PathOk(p, 4)
  {
    full[..3] + [0]
  }

  ghost predicate PageIn(x: nat, lo: nat, hi: nat) { lo <= x < hi && x % PAGE_SIZE == 0 }

  /** `p` is the first page of some two megabytes that the pages from `lo` to `hi` touch. */
  ghost predicate Hit(p: Path, lo: nat, hi: nat) {
    exists x: nat :: PageIn(x, lo, hi) && p == FirstOf(PathOf(x))
  }

  /** `p` is one of the pages from `lo` to `hi`. */
  ghost predicate InRange(p: Path, lo: nat, hi: nat) {
    exists x: nat :: PageIn(x, lo, hi) && p == PathOf(x)
  }

  ghost function Cleared(m: map<Path, UserPage>, lo: nat, hi: nat): map<Path, UserPage> {
    map p | p in m && !Hit(p, lo, hi) :: m[p]
  }

  /** The range in whole pages; none where its end wraps. */
  ghost function RangeEnd(va: Word, len: Word): nat {
    var lo, hi := AlignDown(va), AlignDown(Plus(Plus(va, len), PAGE_SIZE - 1));
    if len == 0 || hi < lo then lo else hi
  }

  ghost function RangeUnmapped(eager: Eager, c: nat, va: Word, len: Word): Eager
    requires c in eager
  {
    eager[c := Cleared(eager[c], AlignDown(va), RangeEnd(va, len))]
  }

  lemma ClearedNone(eager: Eager, c: nat, lo: nat)
    requires c in eager
    ensures eager[c := Cleared(eager[c], lo, lo)] == eager
  {
    assert Cleared(eager[c], lo, lo) == eager[c];
  }

  /** `e'` is `e` with the pages of `c` cleared up to `x`, sealed for the loop. */
  ghost predicate ClearedTo(n: nat, e: Eager, c: nat, lo: nat, x: nat, e': Eager)
    requires c in e
    decreases n
  {
    if n == 0 then e' == e[c := Cleared(e[c], lo, x)] else ClearedTo(n - 1, e, c, lo, x, e')
  }

  lemma {:induction false} OpenCleared(n: nat, e: Eager, c: nat, lo: nat, x: nat, e': Eager)
    requires c in e
    ensures ClearedTo(n, e, c, lo, x, e') <==> e' == e[c := Cleared(e[c], lo, x)]
  {
    if n > 0 {
      OpenCleared(n - 1, e, c, lo, x, e');
    }
  }

  lemma ClearedFrom(n: nat, e: Eager, c: nat, lo: nat)
    requires c in e
    ensures ClearedTo(n, e, c, lo, lo, e)
  {
    ClearedNone(e, c, lo);
    OpenCleared(n, e, c, lo, lo, e);
  }

  lemma NextPage(x: nat, y: nat)
    requires x % 4096 == 0 && y % 4096 == 0 && x < y
    ensures x + 4096 <= y && (x + 4096) % 4096 == 0
  {
  }

  lemma HitMore(lo: nat, x: nat, p: Path)
    requires lo <= x && x % PAGE_SIZE == 0
    ensures Hit(p, lo, x + PAGE_SIZE) <==> Hit(p, lo, x) || p == FirstOf(PathOf(x))
  {
    if Hit(p, lo, x + PAGE_SIZE) {
      var y: nat :| PageIn(y, lo, x + PAGE_SIZE) && p == FirstOf(PathOf(y));
      if y > x {
        NextPage(x, y);
      }
      assert y == x || PageIn(y, lo, x);
    }
    if Hit(p, lo, x) {
      var y: nat :| PageIn(y, lo, x) && p == FirstOf(PathOf(y));
      assert PageIn(y, lo, x + PAGE_SIZE);
    }
    assert PageIn(x, lo, x + PAGE_SIZE);
  }

  lemma ClearedMore(m: map<Path, UserPage>, lo: nat, x: nat)
    requires lo <= x && x % PAGE_SIZE == 0
    ensures Cleared(m, lo, x + PAGE_SIZE) == Cleared(m, lo, x) - {FirstOf(PathOf(x))}
  {
    var f := FirstOf(PathOf(x));
    forall p ensures Hit(p, lo, x + PAGE_SIZE) <==> Hit(p, lo, x) || p == f {
      HitMore(lo, x, p);
    }
  }

  lemma RangeStep(eager: Eager, c: nat, m: map<Path, UserPage>, lo: nat, x: nat)
    requires c in eager && lo <= x && x % PAGE_SIZE == 0
    ensures EagerUnmapped(eager[c := Cleared(m, lo, x)], c, FirstOf(PathOf(x))) == eager[c := Cleared(m, lo, x + PAGE_SIZE)]
  {
    ClearedMore(m, lo, x);
  }

  lemma SameEager(eager: Eager, c: nat, full: Path)
    requires c in eager && full in eager[c]
    ensures EagerMapped(eager, c, full, eager[c][full]) == eager
  {
    assert eager[c][full := eager[c][full]] == eager[c];
  }

  lemma AddRemove<T>(m: map<nat, T>, h: nat, x: T)
    ensures m[h := x] - {h} == m - {h}
    ensures h !in m ==> m - {h} == m
  {
  }

  lemma Rewritten<T>(m: map<nat, T>, h: nat, x: T, src: nat, y: T)
    requires h !in m && src in m
    ensures m[h := x][src := y][h := y] == m[src := y][h := y] && m[h := x][src] == m[src]
  {
    assert src != h;
  }

  lemma AgainOver<T>(m: map<nat, T>, h: nat, x: T, y: T)
    ensures m[h := x][h := y] == m[h := y]
  {
  }

  lemma Suffixes(full: Path)
    requires |full| == 4
    ensures full[..3] == [full[0]] + full[1..3] && full[1..3] == [full[1]] + full[2..3] && full[2..3] == [full[2]] + []
  {
  }

  lemma Prefixes(full: Path)
    requires |full| == 4
    ensures [] + [full[0]] == full[..1] && full[..1] + [full[1]] == full[..2]
    ensures full[..2] + [full[2]] == full[..3] && full[..3] + [full[3]] == full
  {
  }

  lemma FreshPage(w: World, sh: Shape, pa: int)
    requires Good(w, sh) && pa !in w.pool.refs
    ensures forall c :: c in w.s.ctxs ==> pa !in w.s.ctxs[c].pages
  {
    Unfold(w, sh);
    FreshUntracked(w.pool, w.s.ctxs, pa);
  }

  lemma AllocThenFree(p: Pool)
    requires p.Valid() && p.free != []
    ensures p.Alloc().0.Free(p.Alloc().1) == p
  {
    var (p', pa) := p.Alloc();
    assert [p.free[0]] + p.free[1..] == p.free;
    assert p.refs[pa := 1] - {pa} == p.refs;
  }

  lemma {:induction false} WithoutAt(pages: seq<int>, pa: int, i: nat)
    requires i < |pages| && pages[i] == pa && pa !in pages[..i]
    ensures Without(pages, pa) == pages[..i] + pages[i + 1..]
  {
    if i > 0 {
      assert pages[0] in pages[..i];
      assert pages[1..][..i - 1] == pages[1..i];
      WithoutAt(pages[1..], pa, i - 1);
    }
  }
}
