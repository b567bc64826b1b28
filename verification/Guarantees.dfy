/**
 What holds in every state the address-space code can reach: the invariant `Good`, which
 every method of `Mmu` keeps, spelled out for a reader who knows the hardware tables and
 the page allocator but not the proof.
 */
module Guarantees {
  import opened Descriptor
  import opened Pool
  import opened AddressSpace
  import opened TableSteps
  import opened ContextSteps
  import opened Coupling
  import opened World
  import opened Region
  import opened Mmu
  import opened Wrappers

  function EntryIn(tables: map<int, seq<Desc>>, t: int, i: nat): Desc {
    if t in tables && i < |tables[t]| then tables[t][i] else Invalid
  }

  /** The reference walk: blocks are honoured at levels 1 and 2, as the hardware would. */
  function DebugWalk(tables: map<int, seq<Desc>>, root: int, va: nat): Option<int> {
    var p := PathOf(va);
    var l0 := EntryIn(tables, root, p[0]);
    if l0 == Invalid then None else
    var l1 := EntryIn(tables, l0.pa, p[1]);
    if l1 == Invalid then None else
    if l1.Block? then Some(l1.pa - l1.pa % 0x4000_0000 + va % 0x4000_0000) else
    var l2 := EntryIn(tables, l1.pa, p[2]);
    if l2 == Invalid then None else
    if l2.Block? then Some(l2.pa - l2.pa % 0x20_0000 + va % 0x20_0000) else
    var l3 := EntryIn(tables, l2.pa, p[3]);
    if l3 == Invalid then None else Some(l3.pa + va % PAGE_SIZE)
  }

  /** The reference walk finds an address exactly where the address space maps a page, and that page's. */
  lemma WalkAgrees(w: World, sh: Shape, c: nat, va: nat)
    requires Good(w, sh) && c in w.s.ctxs
    ensures var r := DebugWalk(w.s.tables, w.s.ctxs[c].root, va);
      && (r.Some? <==> PathOf(va) in w.eager[c])
      && (r.Some? ==> Leaf(w.s, c, PathOf(va)).Full? && r == Some(Leaf(w.s, c, PathOf(va)).pa + va % PAGE_SIZE))
  {
    var p := PathOf(va);
    Prefixes(p);
    RootTable(w, sh, c);
    var t0 := w.s.ctxs[c].root;
    EntryTable(w, sh, c, t0, [], p[0]);
    if w.s.tables[t0][p[0]] == Invalid {
      NoneUnder(w, sh, c, t0, [], p[0], p);
      return;
    }
    var t1 := w.s.tables[t0][p[0]].pa;
    EntryTable(w, sh, c, t1, p[..1], p[1]);
    if w.s.tables[t1][p[1]] == Invalid {
      NoneUnder(w, sh, c, t1, p[..1], p[1], p);
      return;
    }
    var t2 := w.s.tables[t1][p[1]].pa;
    EntryTable(w, sh, c, t2, p[..2], p[2]);
    if w.s.tables[t2][p[2]] == Invalid {
      NoneUnder(w, sh, c, t2, p[..2], p[2], p);
      return;
    }
    var t3 := w.s.tables[t2][p[2]].pa;
    TableLeaf(w, sh, c, t3, p[..3], p[3]);
    LeafPage(w, sh, c, p);
  }

  ghost predicate Maps(s: State, c: nat, full: Path, pa: int) {
    c in s.ctxs && PathOk(full, 4) && Leaf(s, c, full).Full? && Leaf(s, c, full).pa == pa
  }

  /** A page that some context may write is referenced once and mapped at one address of one context. */
  lemma WritableIsExclusive(w: World, sh: Shape, c: nat, full: Path)
    requires Good(w, sh) && c in w.s.ctxs && PathOk(full, 4)
    requires Leaf(w.s, c, full).Full? && UserWritable(Leaf(w.s, c, full).attrs)
    ensures w.pool.RefGet(Leaf(w.s, c, full).pa) == 1
    ensures forall d, other :: Maps(w.s, d, other, Leaf(w.s, c, full).pa) ==> d == c && other == full
  {
    Unfold(w, sh);
    LeafOk(w.s, sh, c, full);
    var q := Leaf(w.s, c, full).pa;
    assert Counted(w.pool, w.s.ctxs, q);
    assert Trackers(w.s.ctxs, q) == {c};
    forall d, other | Maps(w.s, d, other, q) ensures d == c && other == full {
      LeafOk(w.s, sh, d, other);
      LeafInjective(w.s, sh, c, full, other);
    }
  }

  /** A tracked page is tracked once, counted once per context that tracks it, and never saturates. */
  lemma LedgerExact(w: World, sh: Shape, c: nat, i: nat)
    requires Good(w, sh) && c in w.s.ctxs && i < |w.s.ctxs[c].pages|
    ensures var pa := w.s.ctxs[c].pages[i];
      && w.pool.RefGet(pa) == |Trackers(w.s.ctxs, pa)| && 1 <= w.pool.RefGet(pa) <= 255
      && forall k :: 0 <= k < |w.s.ctxs[c].pages| && w.s.ctxs[c].pages[k] == pa ==> k == i
    ensures |w.s.ctxs| <= 255 && |w.s.ctxs[c].pages| <= MAX_TRACKED
  {
    Unfold(w, sh);
    var pa := w.s.ctxs[c].pages[i];
    assert Counted(w.pool, w.s.ctxs, pa);
    NeverSaturates(w.pool, w.s.ctxs, c, pa);
  }

  /** Whatever a walk passes through or ends at is tracked by the context that walks. */
  lemma ReachedIsTracked(w: World, sh: Shape, c: nat, path: Path)
    requires Good(w, sh) && c in w.s.ctxs && |path| <= 3
    requires Descend(w.s.tables, w.s.ctxs[c].root, path).Some?
    ensures var t := Descend(w.s.tables, w.s.ctxs[c].root, path).value;
      && t in w.s.ctxs[c].pages && w.pool.RefGet(t) == 1
      && t in w.s.tables && |w.s.tables[t]| == ENTRIES
      && forall i :: 0 <= i < ENTRIES && w.s.tables[t][i] != Invalid ==>
           w.s.tables[t][i].Full? && w.s.tables[t][i].pa in w.s.ctxs[c].pages
  {
    Unfold(w, sh);
    var root := w.s.ctxs[c].root;
    DescendPlace(w.s, sh, root, path);
    assert [] + path == path;
    var t := Descend(w.s.tables, root, path).value;
    assert TableAt(w.s, sh, t);
    assert Counted(w.pool, w.s.ctxs, t);
    assert Trackers(w.s.ctxs, t) == {c};
    forall i | 0 <= i < ENTRIES && w.s.tables[t][i] != Invalid
      ensures w.s.tables[t][i].Full? && w.s.tables[t][i].pa in w.s.ctxs[c].pages
    {
      var e := w.s.tables[t][i];
      assert EntryOk(w.s, sh, sh.place[t], i, e);
      if |path| < 3 {
        assert TableAt(w.s, sh, e.pa);
      }
    }
  }

  /** Entries above level 3 restrict nothing, and every user page is cached under its ASID alone. */
  lemma EntriesPlain(w: World, sh: Shape, c: nat, path: Path, i: nat)
    requires Good(w, sh) && c in w.s.ctxs && |path| <= 3 && i < ENTRIES
    requires Descend(w.s.tables, w.s.ctxs[c].root, path).Some?
    ensures var t := Descend(w.s.tables, w.s.ctxs[c].root, path).value;
      && t in w.s.tables && |w.s.tables[t]| == ENTRIES
      && (w.s.tables[t][i].Full? && |path| < 3 ==> w.s.tables[t][i].attrs == Attrs(false, false, false, 0))
      && (w.s.tables[t][i].Full? && |path| == 3 ==> w.s.tables[t][i].attrs.rest & 0x800 != 0)
  {
    Unfold(w, sh);
    var root := w.s.ctxs[c].root;
    DescendPlace(w.s, sh, root, path);
    assert [] + path == path;
    var t := Descend(w.s.tables, root, path).value;
    assert TableAt(w.s, sh, t);
    assert EntryOk(w.s, sh, sh.place[t], i, w.s.tables[t][i]);
  }

  /** When the last context is gone every page is back, whatever the run was. */
  lemma EverythingReturned(w: World, sh: Shape)
    requires Good(w, sh) && w.s.ctxs == map[]
    ensures w.pool.refs == w.outside
    ensures forall pa :: pa in w.all && pa !in w.outside ==> pa in w.pool.free
  {
    Unfold(w, sh);
    AllReturned(w.pool, w.s.ctxs, w.outside);
  }

  /** Live contexts hold distinct ASIDs in 1..255, and the bitmap holds exactly those. */
  lemma DistinctAsids(w: World, sh: Shape, c: nat)
    requires Good(w, sh) && c in w.s.ctxs
    ensures 1 <= w.s.ctxs[c].asid <= ASID_MAX && w.asids[w.s.ctxs[c].asid]
    ensures forall d :: d in w.s.ctxs && d != c ==> w.s.ctxs[d].asid != w.s.ctxs[c].asid
    ensures forall a :: 1 <= a <= ASID_MAX && w.asids[a] ==> exists d :: d in w.s.ctxs && w.s.ctxs[d].asid == a
  {
    Unfold(w, sh);
    assert w.s.ctxs[c].asid in AsidsOf(w.s.ctxs);
  }
}
