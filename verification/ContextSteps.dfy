/**
 The compound steps: sharing a leaf with a clone, creating a context and releasing one.
 */
module ContextSteps {
  import opened Descriptor
  import opened Pool
  import opened AddressSpace
  import opened TableSteps
  import opened Wrappers

  // ---------------------------------------------------------------- one leaf of a clone

  /** The leaf `e` at index `i` becomes a read-only copy-on-write page of both contexts. */
  function CloneLeaf(s: State, dst: nat, ls: int, ld: int, i: nat): State
    requires dst in s.ctxs && ls != ld
    requires ls in s.tables && ld in s.tables && i < |s.tables[ls]| && i < |s.tables[ld]|
    requires s.tables[ls][i].Full?
  {
    var e := s.tables[ls][i];
    WithEntry(WithEntry(s.(ctxs := Tracked(s.ctxs, dst, e.pa)), ld, i, Cow(e)), ls, i, Cow(e))
  }

  ghost predicate CloneSlots(s: State, sh: Shape, src: nat, dst: nat, ls: int, ld: int, i: nat) {
    && src != dst && LeafSlot(s, sh, src, ls, i) && LeafSlot(s, sh, dst, ld, i)
    && sh.place[ls].path == sh.place[ld].path
    && s.tables[ls][i].Full?
    && s.tables[ls][i].pa !in s.ctxs[dst].pages && |s.ctxs[dst].pages| < MAX_TRACKED
  }

  ghost function Rehomed(sh: Shape, c: nat, q: int, path: Path): Shape {
    sh.(home := sh.home[(c, q) := path])
  }

  /** Once the owner's entry is read-only, so is every entry for that page. */
  lemma SharedAreReadOnly(s: State, sh: Shape, src: nat, ls: int, i: nat, q: int)
    requires TableInv(s, sh) && LeafSlot(s, sh, src, ls, i)
    requires s.tables[ls][i].Full? && s.tables[ls][i].pa == q && s.tables[ls][i].attrs.ro
    ensures q !in sh.place
    ensures forall p, k :: p in sh.place && p in s.tables && 0 <= k < |s.tables[p]| ==>
              s.tables[p][k].Full? && s.tables[p][k].pa == q ==> s.tables[p][k].attrs.ro
  {
    assert EntryOk(s, sh, sh.place[ls], i, s.tables[ls][i]);
    forall p, k | p in sh.place && p in s.tables && 0 <= k < |s.tables[p]|
      && s.tables[p][k].Full? && s.tables[p][k].pa == q
      ensures s.tables[p][k].attrs.ro
    {
      assert TableAt(s, sh, p);
      assert EntryOk(s, sh, sh.place[p], k, s.tables[p][k]);
      if sh.place[p].ctx == src {
        SameSlot(sh.place[p].path, k, sh.place[ls].path, i);
        Unique(s, sh, p, ls);
      }
    }
  }

  lemma SameSlot(a: Path, k: nat, b: Path, i: nat)
    requires a + [k] == b + [i]
    ensures a == b && k == i
  {
    assert |a| == |a + [k]| - 1 && |b| == |b + [i]| - 1;
    assert a == (a + [k])[..|a|] && b == (b + [i])[..|b|];
    assert (a + [k])[|a|] == k && (b + [i])[|b|] == i;
  }

  lemma UntrackedInIsUnmappedIn(s: State, sh: Shape, c: nat, q: int)
    requires TableInv(s, sh) && c in s.ctxs && q !in s.ctxs[c].pages && q !in sh.place
    ensures UnmappedIn(s, sh, c, q)
  {
    forall p, i | p in sh.place && sh.place[p].ctx == c && p in s.tables && 0 <= i < |s.tables[p]| && s.tables[p][i].Full?
      ensures s.tables[p][i].pa != q
    {
      assert TableAt(s, sh, p);
      assert EntryOk(s, sh, sh.place[p], i, s.tables[p][i]);
    }
  }

  // The intermediate states, in an order in which each is well formed: the owner's entry
  // turns read-only, the clone enters the page in its ledger, the clone maps it.

  function OwnerCow(s: State, ls: int, i: nat): State
    requires ls in s.tables && i < |s.tables[ls]| && s.tables[ls][i].Full?
  {
    WithEntry(s, ls, i, Cow(s.tables[ls][i]))
  }

  lemma OwnerCowInv(s: State, sh: Shape, src: nat, ls: int, i: nat)
    requires TableInv(s, sh) && LeafSlot(s, sh, src, ls, i) && s.tables[ls][i].Full?
    ensures TableInv(OwnerCow(s, ls, i), sh)
  {
    assert EntryOk(s, sh, sh.place[ls], i, s.tables[ls][i]);
    SetLeafInv(s, sh, src, ls, i, Cow(s.tables[ls][i]));
  }

  lemma JoinInv(s: State, sh: Shape, src: nat, dst: nat, ls: int, i: nat, q: int)
    requires TableInv(s, sh) && LeafSlot(s, sh, src, ls, i)
    requires s.tables[ls][i].Full? && s.tables[ls][i].pa == q && s.tables[ls][i].attrs.ro
    requires dst in s.ctxs && q !in s.ctxs[dst].pages
    ensures TableInv(s.(ctxs := Tracked(s.ctxs, dst, q)), Rehomed(sh, dst, q, sh.place[ls].path + [i]))
    ensures q !in sh.place && q in s.frames && |s.frames[q]| == PAGE_SIZE
  {
    SharedAreReadOnly(s, sh, src, ls, i, q);
    ShareTables(s, sh, dst, q);
    UntrackedInIsUnmappedIn(s, sh, dst, q);
    assert EntryOk(s, sh, sh.place[ls], i, s.tables[ls][i]);
    RehomeInv(s.(ctxs := Tracked(s.ctxs, dst, q)), sh, dst, q, sh.place[ls].path + [i]);
  }

  lemma CloneLeafTables(s: State, sh: Shape, src: nat, dst: nat, ls: int, ld: int, i: nat)
    requires TableInv(s, sh) && CloneSlots(s, sh, src, dst, ls, ld, i)
    ensures TableInv(CloneLeaf(s, dst, ls, ld, i),
                     Rehomed(sh, dst, s.tables[ls][i].pa, sh.place[ls].path + [i]))
  {
    var e := s.tables[ls][i];
    var s1 := OwnerCow(s, ls, i);
    OwnerCowInv(s, sh, src, ls, i);
    JoinInv(s1, sh, src, dst, ls, i, e.pa);
    MapJoined(s1.(ctxs := Tracked(s1.ctxs, dst, e.pa)), sh, dst, ld, i, Cow(e), sh.place[ls].path + [i]);
    assert WithEntry(s1.(ctxs := Tracked(s1.ctxs, dst, e.pa)), ld, i, Cow(e)) == CloneLeaf(s, dst, ls, ld, i);
  }

  lemma MapJoined(s: State, sh: Shape, dst: nat, ld: int, i: nat, e: Desc, full: Path)
    requires e.Full? && e.attrs.ro && Tagged(e.attrs) && TableInv(s, Rehomed(sh, dst, e.pa, full))
    requires LeafSlot(s, sh, dst, ld, i) && full == sh.place[ld].path + [i]
    requires e.pa !in sh.place && e.pa in s.ctxs[dst].pages && e.pa in s.frames && |s.frames[e.pa]| == PAGE_SIZE
    ensures TableInv(WithEntry(s, ld, i, e), Rehomed(sh, dst, e.pa, full))
  {
    SetLeafInv(s, Rehomed(sh, dst, e.pa, full), dst, ld, i, e);
  }

  lemma OwnerTracks(s: State, sh: Shape, src: nat, ls: int, i: nat)
    requires TableInv(s, sh) && LeafSlot(s, sh, src, ls, i) && s.tables[ls][i].Full?
    ensures s.tables[ls][i].pa in s.ctxs[src].pages
  {
    assert EntryOk(s, sh, sh.place[ls], i, s.tables[ls][i]);
  }

  lemma CloneLeafInv(pool: Pool, s: State, sh: Shape, src: nat, dst: nat, ls: int, ld: int, i: nat)
    requires Inv(pool, s, sh) && CloneSlots(s, sh, src, dst, ls, ld, i)
    ensures Inv(pool.RefInc(s.tables[ls][i].pa), CloneLeaf(s, dst, ls, ld, i),
                Rehomed(sh, dst, s.tables[ls][i].pa, sh.place[ls].path + [i]))
  {
    OwnerTracks(s, sh, src, ls, i);
    ShareLedger(pool, s.ctxs, dst, s.tables[ls][i].pa, src);
    CloneLeafTables(s, sh, src, dst, ls, ld, i);
  }

  /** A cloned leaf appears in the clone at the parent's virtual page; no other leaf moves. */
  lemma CloneLeafLeaf(s: State, sh: Shape, src: nat, dst: nat, ls: int, ld: int, i: nat, d: nat, full: Path)
    requires TableInv(s, sh) && CloneSlots(s, sh, src, dst, ls, ld, i)
    requires d in s.ctxs && PathOk(full, 4)
    ensures Leaf(CloneLeaf(s, dst, ls, ld, i), d, full) ==
      (if (d == src || d == dst) && full == sh.place[ls].path + [i] then Cow(s.tables[ls][i]) else Leaf(s, d, full))
  {
    var e := s.tables[ls][i];
    var s1 := OwnerCow(s, ls, i);
    OwnerCowInv(s, sh, src, ls, i);
    SetLeafLeaf(s, sh, src, ls, i, Cow(e), d, full);
    SetLeafLeaf(s1, sh, dst, ld, i, Cow(e), d, full);
    assert WithEntry(s1, ld, i, Cow(e)).tables == CloneLeaf(s, dst, ls, ld, i).tables;
  }

  // ---------------------------------------------------------------- creation

  function Created(s: State, c: nat, asid: nat, root: int): State {
    s.(ctxs := s.ctxs[c := Context(root, asid, [root])], tables := s.tables[root := EmptyTable()])
  }

  ghost function Rooted(sh: Shape, c: nat, root: int): Shape {
    sh.(place := sh.place[root := Place(c, [])])
  }

  lemma CreatedLedger(pool: Pool, s: State, c: nat, asid: nat)
    requires LedgerInv(pool, s.ctxs) && c !in s.ctxs && pool.free != []
    ensures LedgerInv(pool.Alloc().0, Created(s, c, asid, pool.Alloc().1).ctxs)
  {
    var (pool', root) := pool.Alloc();
    var ctxs' := Created(s, c, asid, root).ctxs;
    FreshUntracked(pool, s.ctxs, root);
    forall d, q | d in ctxs' && q in ctxs'[d].pages ensures Counted(pool', ctxs', q) {
      if q == root {
        assert Trackers(ctxs', q) == {c};
      } else {
        assert Counted(pool, s.ctxs, q);
        assert Trackers(ctxs', q) == Trackers(s.ctxs, q);
      }
    }
  }

  lemma CreatedTables(s: State, sh: Shape, c: nat, asid: nat, root: int)
    requires TableInv(s, sh) && c !in s.ctxs && Unmapped(s, sh, root)
    requires forall d :: d in s.ctxs ==> root !in s.ctxs[d].pages
    ensures TableInv(Created(s, c, asid, root), Rooted(sh, c, root))
  {
    var s' := Created(s, c, asid, root);
    var sh' := Rooted(sh, c, root);
    forall p | p in sh'.place ensures TableAt(s', sh', p) && HangsAt(s', sh', p, sh'.place[p]) {
      if p != root {
        assert TableAt(s, sh, p) && HangsAt(s, sh, p, sh.place[p]);
      }
    }
    forall p, i | p in sh'.place && 0 <= i < ENTRIES
      ensures EntryOk(s', sh', sh'.place[p], i, s'.tables[p][i])
    {
      if p != root {
        assert TableAt(s, sh, p);
        assert EntryOk(s, sh, sh.place[p], i, s.tables[p][i]);
      }
    }
  }

  lemma CreatedInv(pool: Pool, s: State, sh: Shape, c: nat, asid: nat)
    requires Inv(pool, s, sh) && c !in s.ctxs && pool.free != []
    requires 1 <= asid <= 255 && forall d :: d in s.ctxs ==> s.ctxs[d].asid != asid
    ensures Inv(pool.Alloc().0, Created(s, c, asid, pool.Alloc().1), Rooted(sh, c, pool.Alloc().1))
  {
    var root := pool.Alloc().1;
    CreatedLedger(pool, s, c, asid);
    FreshUntracked(pool, s.ctxs, root);
    UntrackedIsUnmapped(s, sh, root);
    CreatedTables(s, sh, c, asid, root);
  }

  /** A new context maps nothing, and the others keep what they map. */
  lemma CreatedLeaf(s: State, sh: Shape, c: nat, asid: nat, root: int, d: nat, full: Path)
    requires TableInv(s, sh) && c !in s.ctxs && root !in sh.place
    requires (d == c || d in s.ctxs) && PathOk(full, 4)
    ensures Leaf(Created(s, c, asid, root), d, full) == (if d == c then Invalid else Leaf(s, d, full))
  {
    if d != c {
      assert forall p :: p in sh.place ==> TableAt(s, sh, p);
      LeafFrame(s, sh, Created(s, c, asid, root).tables, d, full);
    }
  }

  // ---------------------------------------------------------------- release

  /** `mmu_context_release` frees the ledger from its end. */
  function FreeAll(p: Pool, pages: seq<int>): (r: Pool)
    requires p.Valid()
    ensures r.Valid() && r.Managed() == p.Managed()
    decreases |pages|
  {
    if pages == [] then p
    else FreeAll(p.Free(pages[|pages| - 1]), pages[..|pages| - 1])
  }

  /** Every page in the ledger loses one reference; no other page is touched. */
  lemma {:induction false} FreeAllRefs(p: Pool, pages: seq<int>, x: int)
    requires p.Valid() && NoDup(pages) && forall y :: y in pages ==> y in p.refs
    ensures x !in pages ==> (x in FreeAll(p, pages).refs <==> x in p.refs)
    ensures x !in pages && x in p.refs ==> FreeAll(p, pages).refs[x] == p.refs[x]
    ensures x in pages ==> (x in FreeAll(p, pages).refs <==> p.refs[x] > 1)
    ensures x in pages && p.refs[x] > 1 ==> FreeAll(p, pages).refs[x] == p.refs[x] - 1
    decreases |pages|
  {
    if pages != [] {
      var last := pages[|pages| - 1];
      var init := pages[..|pages| - 1];
      assert pages == init + [last];
      assert last !in init;
      FreeAllRefs(p.Free(last), init, x);
    }
  }

  ghost function Pruned(sh: Shape, c: nat): Shape {
    sh.(place := map p | p in sh.place && sh.place[p].ctx != c :: sh.place[p])
  }

  lemma ReleasedCounted(pool: Pool, ctxs: map<nat, Context>, c: nat, d: nat, x: int)
    requires pool.Valid() && c in ctxs && d in ctxs && d != c && x in ctxs[d].pages
    requires forall y :: y in ctxs[c].pages ==> y in pool.refs
    requires NoDup(ctxs[c].pages) && Counted(pool, ctxs, x)
    ensures Counted(FreeAll(pool, ctxs[c].pages), ctxs - {c}, x)
  {
    FreeAllRefs(pool, ctxs[c].pages, x);
    FewerTrackers(ctxs, c, d, x);
  }

  lemma FewerTrackers(ctxs: map<nat, Context>, c: nat, d: nat, x: int)
    requires c in ctxs && d in ctxs && d != c && x in ctxs[d].pages
    ensures |Trackers(ctxs - {c}, x)| == |Trackers(ctxs, x)| - (if x in ctxs[c].pages then 1 else 0)
    ensures |Trackers(ctxs - {c}, x)| > 0
  {
    assert d in Trackers(ctxs - {c}, x);
    if x in ctxs[c].pages {
      assert c in Trackers(ctxs, x);
      assert Trackers(ctxs - {c}, x) == Trackers(ctxs, x) - {c};
    } else {
      assert Trackers(ctxs - {c}, x) == Trackers(ctxs, x);
    }
  }

  lemma ReleasedLedger(pool: Pool, ctxs: map<nat, Context>, c: nat)
    requires LedgerInv(pool, ctxs) && c in ctxs
    ensures LedgerInv(FreeAll(pool, ctxs[c].pages), ctxs - {c})
  {
    var ctxs' := ctxs - {c};
    var pool' := FreeAll(pool, ctxs[c].pages);
    assert forall y :: y in ctxs[c].pages ==> Counted(pool, ctxs, y);
    forall d, x | d in ctxs' && x in ctxs'[d].pages ensures Counted(pool', ctxs', x) {
      assert Counted(pool, ctxs, x);
      ReleasedCounted(pool, ctxs, c, d, x);
    }
  }

  lemma ReleasedTables(s: State, sh: Shape, c: nat)
    requires TableInv(s, sh) && c in s.ctxs
    ensures TableInv(s.(ctxs := s.ctxs - {c}), Pruned(sh, c))
  {
    var s' := s.(ctxs := s.ctxs - {c});
    var sh' := Pruned(sh, c);
    forall p | p in sh'.place ensures TableAt(s', sh', p) && HangsAt(s', sh', p, sh'.place[p]) {
      assert TableAt(s, sh, p) && HangsAt(s, sh, p, sh.place[p]);
    }
    forall p, i | p in sh'.place && 0 <= i < ENTRIES
      ensures EntryOk(s', sh', sh'.place[p], i, s'.tables[p][i])
    {
      assert TableAt(s, sh, p);
      assert EntryOk(s, sh, sh.place[p], i, s.tables[p][i]);
    }
  }

  lemma ReleasedInv(pool: Pool, s: State, sh: Shape, c: nat)
    requires Inv(pool, s, sh) && c in s.ctxs
    ensures Inv(FreeAll(pool, s.ctxs[c].pages), s.(ctxs := s.ctxs - {c}), Pruned(sh, c))
  {
    ReleasedLedger(pool, s.ctxs, c);
    ReleasedTables(s, sh, c);
  }
}
