/**
 One lemma per change the kernel makes to the tables, the ledgers or the user pages: the
 invariant is kept, and exactly the stated virtual pages change.
 */
module TableSteps {
  import opened Descriptor
  import opened Pool
  import opened AddressSpace
  import opened Wrappers

  /** The tables where a walk of context `d` can end are placed at depth three. */
  lemma LeafTable(s: State, sh: Shape, d: nat, full: Path)
    requires TableInv(s, sh) && d in s.ctxs && PathOk(full, 4)
    ensures var l3 := Descend(s.tables, s.ctxs[d].root, full[..3]);
      l3.Some? ==> l3.value in sh.place && sh.place[l3.value] == Place(d, full[..3])
                   && TableAt(s, sh, l3.value)
  {
    if Descend(s.tables, s.ctxs[d].root, full[..3]).Some? {
      DescendPlace(s, sh, s.ctxs[d].root, full[..3]);
      assert [] + full[..3] == full[..3];
    }
  }

  /** Tables that agree on every entry a walk of `full` in `d` can read give the same leaf. */
  lemma LeafFrame(s: State, sh: Shape, tables': map<int, seq<Desc>>, d: nat, full: Path)
    requires TableInv(s, sh) && d in s.ctxs && PathOk(full, 4)
    requires forall q :: q in sh.place && sh.place[q].ctx == d && sh.place[q].path < full
                 && q in s.tables && |s.tables[q]| == ENTRIES
               ==> q in tables' && |tables'[q]| == ENTRIES
                   && tables'[q][full[|sh.place[q].path|]] == s.tables[q][full[|sh.place[q].path|]]
    ensures LeafIn(tables', s.ctxs[d].root, full) == Leaf(s, d, full)
  {
    var root := s.ctxs[d].root;
    assert [] + full[..3] == full[..3];
    forall q | q in sh.place && sh.place[q].ctx == d && sh.place[q].path < full[..3]
      ensures sh.place[q].path < full && full[..3][|sh.place[q].path|] == full[|sh.place[q].path|]
    {
      assert full[..|sh.place[q].path|] == full[..3][..|sh.place[q].path|];
    }
    DescendFrame(s, sh, tables', root, full[..3]);
    LeafTable(s, sh, d, full);
    assert full[..3] < full;
  }

  // ---------------------------------------------------------------- linking a table

  ghost function Linked(sh: Shape, parent: int, i: nat, q: int): Shape
    requires parent in sh.place
  {
    sh.(place := sh.place[q := Place(sh.place[parent].ctx, sh.place[parent].path + [i])],
        parent := sh.parent[q := parent])
  }

  /** `q` is a zeroed page only `c` tracks, ready to become a table. */
  ghost predicate Blank(s: State, sh: Shape, c: nat, q: int) {
    && c in s.ctxs && q in s.ctxs[c].pages && Exclusive(s.ctxs, c, q)
    && Unmapped(s, sh, q)
    && q in s.tables && s.tables[q] == EmptyTable()
  }

  ghost predicate OpenSlot(s: State, sh: Shape, c: nat, parent: int, i: nat) {
    && c in s.ctxs && parent in sh.place && sh.place[parent].ctx == c && |sh.place[parent].path| < 3
    && i < ENTRIES && parent in s.tables && |s.tables[parent]| == ENTRIES
    && s.tables[parent][i] == Invalid
  }

  lemma LinkTableInv(s: State, sh: Shape, c: nat, parent: int, i: nat, q: int, attrs: Attrs)
    requires TableInv(s, sh) && OpenSlot(s, sh, c, parent, i) && Blank(s, sh, c, q) && attrs == TABLE_ATTRS
    ensures TableInv(WithEntry(s, parent, i, Full(q, attrs)), Linked(sh, parent, i, q))
  {
    var s' := WithEntry(s, parent, i, Full(q, attrs));
    var sh' := Linked(sh, parent, i, q);
    forall p | p in sh'.place ensures TableAt(s', sh', p) && HangsAt(s', sh', p, sh'.place[p]) {
      if p != q {
        assert TableAt(s, sh, p) && HangsAt(s, sh, p, sh.place[p]);
      }
    }
    forall p, k | p in sh'.place && 0 <= k < ENTRIES
      ensures EntryOk(s', sh', sh'.place[p], k, s'.tables[p][k])
    {
      if p != q && !(p == parent && k == i) {
        assert TableAt(s, sh, p);
        assert EntryOk(s, sh, sh.place[p], k, s.tables[p][k]);
      }
    }
  }

  /** Under an invalid entry there is nothing to find. */
  lemma NothingUnder(s: State, sh: Shape, c: nat, parent: int, i: nat, full: Path)
    requires TableInv(s, sh) && OpenSlot(s, sh, c, parent, i)
    requires PathOk(full, 4) && sh.place[parent].path + [i] <= full[..3]
    ensures Leaf(s, c, full) == Invalid
  {
    var at := sh.place[parent].path;
    var rest := full[|at| + 1..3];
    assert full[..3] == at + ([i] + rest);
    Reached(s, sh, parent);
    DescendSplit(s.tables, s.ctxs[c].root, at, [i] + rest);
  }

  /** Under an empty table there is nothing to find either. */
  lemma NothingInEmpty(s: State, sh: Shape, c: nat, q: int, full: Path)
    requires TableInv(s, sh) && q in sh.place && sh.place[q].ctx == c && c in s.ctxs
    requires q in s.tables && s.tables[q] == EmptyTable()
    requires PathOk(full, 4) && sh.place[q].path <= full[..3]
    ensures Leaf(s, c, full) == Invalid
  {
    Reached(s, sh, q);
    EmptyLeaf(s.tables, s.ctxs[c].root, sh.place[q].path, q, full);
  }

  lemma EmptyLeaf(tables: map<int, seq<Desc>>, root: int, at: Path, q: int, full: Path)
    requires Descend(tables, root, at) == Some(q) && q in tables && tables[q] == EmptyTable()
    requires PathOk(full, 4) && at <= full[..3]
    ensures LeafIn(tables, root, full) == Invalid
  {
    var rest := full[|at|..3];
    assert full[..3] == at + rest;
    DescendSplit(tables, root, at, rest);
  }

  lemma LinkTableLeaf(s: State, sh: Shape, c: nat, parent: int, i: nat, q: int, attrs: Attrs, d: nat, full: Path)
    requires TableInv(s, sh) && OpenSlot(s, sh, c, parent, i) && Blank(s, sh, c, q) && attrs == TABLE_ATTRS
    requires d in s.ctxs && PathOk(full, 4)
    ensures Leaf(WithEntry(s, parent, i, Full(q, attrs)), d, full) == Leaf(s, d, full)
  {
    var s' := WithEntry(s, parent, i, Full(q, attrs));
    var at := sh.place[parent].path;
    if d == c && at + [i] <= full[..3] {
      NothingUnder(s, sh, c, parent, i, full);
      LinkTableInv(s, sh, c, parent, i, q, attrs);
      NothingInEmpty(s', Linked(sh, parent, i, q), c, q, full);
    } else {
      assert forall p :: p in sh.place ==> TableAt(s, sh, p);
      if d == c && at < full {
        assert full[..3][..|at| + 1] == at + [full[|at|]];
      }
      LeafFrame(s, sh, s'.tables, d, full);
    }
  }

  // ---------------------------------------------------------------- writing a leaf entry

  ghost predicate LeafSlot(s: State, sh: Shape, c: nat, l3: int, i: nat) {
    && c in s.ctxs && l3 in sh.place && sh.place[l3].ctx == c && |sh.place[l3].path| == 3
    && i < ENTRIES && l3 in s.tables && |s.tables[l3]| == ENTRIES
  }

  /**
   Entry `i` of the level-3 table `l3` becomes `e`: nothing, or a page the context owns
   that no other of its entries maps.
   */
  lemma SetLeafInv(s: State, sh: Shape, c: nat, l3: int, i: nat, e: Desc)
    requires TableInv(s, sh) && LeafSlot(s, sh, c, l3, i) && !e.Block?
    requires e.Full? ==> EntryOk(s, sh, sh.place[l3], i, e)
    ensures TableInv(WithEntry(s, l3, i, e), sh)
  {
    var s' := WithEntry(s, l3, i, e);
    forall p | p in sh.place ensures TableAt(s', sh, p) && HangsAt(s', sh, p, sh.place[p]) {
      assert TableAt(s, sh, p) && HangsAt(s, sh, p, sh.place[p]);
    }
    forall p, k | p in sh.place && 0 <= k < ENTRIES
      ensures EntryOk(s', sh, sh.place[p], k, s'.tables[p][k])
    {
      if !(p == l3 && k == i) {
        assert TableAt(s, sh, p);
        assert EntryOk(s, sh, sh.place[p], k, s.tables[p][k]);
      }
    }
  }

  lemma SetLeafLeaf(s: State, sh: Shape, c: nat, l3: int, i: nat, e: Desc, d: nat, full: Path)
    requires TableInv(s, sh) && LeafSlot(s, sh, c, l3, i)
    requires d in s.ctxs && PathOk(full, 4)
    ensures Leaf(WithEntry(s, l3, i, e), d, full) ==
      (if d == c && full == sh.place[l3].path + [i] then e else Leaf(s, d, full))
  {
    SetLeafDescend(s, sh, c, l3, i, e, d, full[..3]);
    LeafTable(s, sh, d, full);
    assert full == full[..3] + [full[3]];
    if d == c && full[..3] == sh.place[l3].path {
      Reached(s, sh, l3);
    }
  }

  lemma SetLeafDescend(s: State, sh: Shape, c: nat, l3: int, i: nat, e: Desc, d: nat, path: Path)
    requires TableInv(s, sh) && LeafSlot(s, sh, c, l3, i) && d in s.ctxs && |path| == 3
    ensures Descend(WithEntry(s, l3, i, e).tables, s.ctxs[d].root, path) == Descend(s.tables, s.ctxs[d].root, path)
  {
    var s' := WithEntry(s, l3, i, e);
    forall p | p in sh.place && |sh.place[p].path| < 3
      ensures p in s'.tables && s'.tables[p] == s.tables[p]
    {
      assert TableAt(s, sh, p);
    }
    DescendFrameUpper(s, sh, s'.tables, s.ctxs[d].root, path);
  }

  /** The entry found by a walk is the entry of its level-3 table. */
  lemma LeafOfSlot(s: State, sh: Shape, c: nat, l3: int, i: nat)
    requires TableInv(s, sh) && LeafSlot(s, sh, c, l3, i)
    ensures Leaf(s, c, sh.place[l3].path + [i]) == s.tables[l3][i]
  {
    var full := sh.place[l3].path + [i];
    assert full[..3] == sh.place[l3].path;
    Reached(s, sh, l3);
  }

  /** Two virtual pages of one context never share a physical page. */
  lemma LeafInjective(s: State, sh: Shape, c: nat, a: Path, b: Path)
    requires TableInv(s, sh) && c in s.ctxs && PathOk(a, 4) && PathOk(b, 4)
    requires Leaf(s, c, a).Full? && Leaf(s, c, b).Full? && Leaf(s, c, a).pa == Leaf(s, c, b).pa
    ensures a == b
  {
    LeafOk(s, sh, c, a);
    LeafOk(s, sh, c, b);
  }

  lemma LeafOk(s: State, sh: Shape, c: nat, full: Path)
    requires TableInv(s, sh) && c in s.ctxs && PathOk(full, 4)
    ensures !Leaf(s, c, full).Block?
    ensures Leaf(s, c, full).Full? ==>
      var q := Leaf(s, c, full).pa;
      && q !in sh.place && q in s.ctxs[c].pages && q in s.frames && |s.frames[q]| == PAGE_SIZE
      && (c, q) in sh.home && sh.home[(c, q)] == full
      && (!Leaf(s, c, full).attrs.ro ==> Exclusive(s.ctxs, c, q))
  {
    LeafTable(s, sh, c, full);
    var l3 := Descend(s.tables, s.ctxs[c].root, full[..3]);
    if l3.Some? {
      assert EntryOk(s, sh, sh.place[l3.value], full[3], s.tables[l3.value][full[3]]);
      assert full[..3] + [full[3]] == full;
    }
  }

  // ---------------------------------------------------------------- memory and bookkeeping

  /** A page's home in `c` may be set freely while `c` does not map it. */
  lemma RehomeInv(s: State, sh: Shape, c: nat, q: int, path: Path)
    requires TableInv(s, sh) && UnmappedIn(s, sh, c, q)
    ensures TableInv(s, sh.(home := sh.home[(c, q) := path]))
  {
    var sh' := sh.(home := sh.home[(c, q) := path]);
    forall p | p in sh.place ensures TableAt(s, sh', p) && HangsAt(s, sh', p, sh'.place[p]) {
      assert TableAt(s, sh, p) && HangsAt(s, sh, p, sh.place[p]);
    }
    forall p, i | p in sh.place && 0 <= i < ENTRIES
      ensures EntryOk(s, sh', sh'.place[p], i, s.tables[p][i])
    {
      assert TableAt(s, sh, p);
      assert EntryOk(s, sh, sh.place[p], i, s.tables[p][i]);
    }
  }

  /** Filling a page, or clearing one that is no table yet, disturbs no table. */
  lemma FillInv(s: State, sh: Shape, q: int, b: Bytes)
    requires TableInv(s, sh) && |b| == PAGE_SIZE
    ensures TableInv(s.(frames := s.frames[q := b]), sh)
  {
    var s' := s.(frames := s.frames[q := b]);
    forall p | p in sh.place ensures TableAt(s', sh, p) && HangsAt(s', sh, p, sh.place[p]) {
      assert TableAt(s, sh, p) && HangsAt(s, sh, p, sh.place[p]);
    }
    forall p, i | p in sh.place && 0 <= i < ENTRIES
      ensures EntryOk(s', sh, sh.place[p], i, s'.tables[p][i])
    {
      assert EntryOk(s, sh, sh.place[p], i, s.tables[p][i]);
    }
  }

  lemma ClearInv(s: State, sh: Shape, q: int, t: seq<Desc>)
    requires TableInv(s, sh) && q !in sh.place
    ensures TableInv(s.(tables := s.tables[q := t]), sh)
  {
    var s' := s.(tables := s.tables[q := t]);
    forall p | p in sh.place ensures TableAt(s', sh, p) && HangsAt(s', sh, p, sh.place[p]) {
      assert TableAt(s, sh, p) && HangsAt(s, sh, p, sh.place[p]);
    }
    forall p, i | p in sh.place && 0 <= i < ENTRIES
      ensures EntryOk(s', sh, sh.place[p], i, s'.tables[p][i])
    {
      assert TableAt(s, sh, p);
      assert EntryOk(s, sh, sh.place[p], i, s.tables[p][i]);
    }
  }

  // ---------------------------------------------------------------- dropping a page

  /** `mmu_context_remove_page_locked`: the first occurrence goes, the tail moves up. */
  function Without(pages: seq<int>, pa: int): (r: seq<int>)
    ensures pa !in pages ==> r == pages
    ensures pa in pages ==> |r| == |pages| - 1
    ensures forall x :: x in r ==> x in pages
    ensures forall x :: x in pages && x != pa ==> x in r
  {
    if pages == [] then []
    else if pages[0] == pa then pages[1..]
    else [pages[0]] + Without(pages[1..], pa)
  }

  lemma {:induction false} WithoutNoDup(pages: seq<int>, pa: int)
    requires NoDup(pages)
    ensures NoDup(Without(pages, pa)) && pa !in Without(pages, pa)
  {
    if pages == [] {
    } else if pages[0] == pa {
      assert Without(pages, pa) == pages[1..];
    } else {
      var r := Without(pages[1..], pa);
      WithoutNoDup(pages[1..], pa);
      assert pages[0] !in r;
      assert Without(pages, pa) == [pages[0]] + r;
    }
  }

  function Untracked(ctxs: map<nat, Context>, c: nat, q: int): map<nat, Context>
    requires c in ctxs
  {
    ctxs[c := ctxs[c].(pages := Without(ctxs[c].pages, q))]
  }

  lemma UntrackTables(s: State, sh: Shape, c: nat, q: int)
    requires TableInv(s, sh) && c in s.ctxs && UnmappedIn(s, sh, c, q)
    ensures TableInv(s.(ctxs := Untracked(s.ctxs, c, q)), sh)
  {
    var s' := s.(ctxs := Untracked(s.ctxs, c, q));
    assert forall d :: d in s.ctxs ==> forall x :: x in s'.ctxs[d].pages ==> x in s.ctxs[d].pages;
    forall p | p in sh.place ensures TableAt(s', sh, p) && HangsAt(s', sh, p, sh.place[p]) {
      assert TableAt(s, sh, p) && HangsAt(s, sh, p, sh.place[p]);
    }
    forall p, i | p in sh.place && 0 <= i < ENTRIES
      ensures EntryOk(s', sh, sh.place[p], i, s'.tables[p][i])
    {
      assert TableAt(s, sh, p);
      assert EntryOk(s, sh, sh.place[p], i, s.tables[p][i]);
    }
  }

  lemma UntrackCounted(pool: Pool, ctxs: map<nat, Context>, c: nat, q: int, d: nat, x: int)
    requires pool.Valid() && c in ctxs && q in ctxs[c].pages && NoDup(ctxs[c].pages)
    requires d in ctxs && x in Untracked(ctxs, c, q)[d].pages
    requires Counted(pool, ctxs, x) && Counted(pool, ctxs, q)
    ensures Counted(pool.Free(q), Untracked(ctxs, c, q), x)
  {
    var ctxs' := Untracked(ctxs, c, q);
    WithoutNoDup(ctxs[c].pages, q);
    if x == q {
      assert c in Trackers(ctxs, q) && d in Trackers(ctxs', q);
      assert Trackers(ctxs', q) == Trackers(ctxs, q) - {c};
      assert |Trackers(ctxs', q)| != 0;
    } else {
      assert Trackers(ctxs', x) == Trackers(ctxs, x);
    }
  }

  lemma UntrackLedger(pool: Pool, ctxs: map<nat, Context>, c: nat, q: int)
    requires LedgerInv(pool, ctxs) && c in ctxs && q in ctxs[c].pages
    ensures LedgerInv(pool.Free(q), Untracked(ctxs, c, q))
  {
    var ctxs' := Untracked(ctxs, c, q);
    WithoutNoDup(ctxs[c].pages, q);
    forall d, x | d in ctxs' && x in ctxs'[d].pages ensures Counted(pool.Free(q), ctxs', x) {
      UntrackCounted(pool, ctxs, c, q, d, x);
    }
  }

  lemma UntrackInv(pool: Pool, s: State, sh: Shape, c: nat, q: int)
    requires Inv(pool, s, sh) && c in s.ctxs && q in s.ctxs[c].pages && UnmappedIn(s, sh, c, q)
    ensures Inv(pool.Free(q), s.(ctxs := Untracked(s.ctxs, c, q)), sh)
  {
    UntrackTables(s, sh, c, q);
    UntrackLedger(pool, s.ctxs, c, q);
  }

  // ---------------------------------------------------------------- sharing a page

  lemma {:induction false} AsidCount(ctxs: map<nat, Context>, keys: set<nat>, n: nat)
    requires keys <= ctxs.Keys && AsidInv(ctxs)
    requires forall c :: c in keys ==> ctxs[c].asid <= n
    ensures |keys| <= n
    decreases n
  {
    if n == 0 {
      assert keys == {};
    } else if c :| c in keys && ctxs[c].asid == n {
      AsidCount(ctxs, keys - {c}, n - 1);
    } else {
      AsidCount(ctxs, keys, n - 1);
    }
  }

  /** There are never more contexts than ASIDs, so a count never saturates. */
  lemma NeverSaturates(pool: Pool, ctxs: map<nat, Context>, c: nat, pa: int)
    requires LedgerInv(pool, ctxs) && AsidInv(ctxs) && c in ctxs && pa in ctxs[c].pages
    ensures |ctxs| <= 255 && pa in pool.refs && pool.refs[pa] <= 255
    ensures pool.RefInc(pa).refs == pool.refs[pa := pool.refs[pa] + 1]
  {
    AsidCount(ctxs, ctxs.Keys, 255);
    AsidCount(ctxs, Trackers(ctxs, pa), 255);
    assert Counted(pool, ctxs, pa);
  }

  lemma ShareLedger(pool: Pool, ctxs: map<nat, Context>, c: nat, q: int, owner: nat)
    requires LedgerInv(pool, ctxs) && AsidInv(ctxs) && c in ctxs && owner in ctxs && q in ctxs[owner].pages
    requires q !in ctxs[c].pages && |ctxs[c].pages| < MAX_TRACKED
    ensures LedgerInv(pool.RefInc(q), Tracked(ctxs, c, q))
  {
    var ctxs' := Tracked(ctxs, c, q);
    NeverSaturates(pool, ctxs, owner, q);
    forall d, x | d in ctxs' && x in ctxs'[d].pages ensures Counted(pool.RefInc(q), ctxs', x) {
      MoreTrackers(ctxs, c, q, x);
      if x == q {
        assert Counted(pool, ctxs, q);
      } else {
        assert Counted(pool, ctxs, x);
      }
    }
  }

  lemma MoreTrackers(ctxs: map<nat, Context>, c: nat, q: int, x: int)
    requires c in ctxs && q !in ctxs[c].pages
    ensures |Trackers(Tracked(ctxs, c, q), x)| == |Trackers(ctxs, x)| + (if x == q then 1 else 0)
  {
    if x == q {
      assert Trackers(Tracked(ctxs, c, q), q) == Trackers(ctxs, q) + {c};
    } else {
      assert Trackers(Tracked(ctxs, c, q), x) == Trackers(ctxs, x);
    }
  }

  /** Tracking a page others map read-only leaves the tables well formed. */
  lemma ShareTables(s: State, sh: Shape, c: nat, q: int)
    requires TableInv(s, sh) && c in s.ctxs && q !in sh.place
    requires forall p, i :: p in sh.place && p in s.tables && 0 <= i < |s.tables[p]| ==>
               s.tables[p][i].Full? && s.tables[p][i].pa == q ==> s.tables[p][i].attrs.ro
    ensures TableInv(s.(ctxs := Tracked(s.ctxs, c, q)), sh)
  {
    var s' := s.(ctxs := Tracked(s.ctxs, c, q));
    forall p | p in sh.place ensures TableAt(s', sh, p) && HangsAt(s', sh, p, sh.place[p]) {
      assert TableAt(s, sh, p) && HangsAt(s, sh, p, sh.place[p]);
    }
    forall p, i | p in sh.place && 0 <= i < ENTRIES
      ensures EntryOk(s', sh, sh.place[p], i, s'.tables[p][i])
    {
      assert TableAt(s, sh, p);
      assert EntryOk(s, sh, sh.place[p], i, s.tables[p][i]);
    }
  }
}
