/**
 The state of every address space: the owned-page ledgers, the four-level tables in
 physical memory and the user pages, with the invariant all of them keep together.
 */
module AddressSpace {
  import opened Descriptor
  import opened Pool
  import opened Wrappers

  const ENTRIES: nat := 512
  const MAX_TRACKED: nat := 256

  type Byte = b: int | 0 <= b < 256
  type Bytes = seq<Byte>

  /** Table indices from level 0 down; a full path (length 4) names one virtual page. */
  type Path = seq<nat>

  /** `struct mm_context`: the fields the page-table code uses. */
  datatype Context = Context(root: int, asid: nat, pages: seq<int>)

  datatype State = State(
    ctxs: map<nat, Context>,          // live contexts
    tables: map<int, seq<Desc>>,      // pages holding tables
    frames: map<int, Bytes>)          // pages holding user data

  /**
   Where each table page hangs and from which table, and which virtual page of which
   context each user page backs.  Proof bookkeeping: the kernel stores none of it.
   */
  datatype Place = Place(ctx: nat, path: Path)
  datatype Shape = Shape(place: map<int, Place>, parent: map<int, int>, home: map<(nat, int), Path>)

  // ---------------------------------------------------------------- ledger

  ghost function Trackers(ctxs: map<nat, Context>, pa: int): set<nat> {
    set c | c in ctxs && pa in ctxs[c].pages
  }

  ghost predicate Exclusive(ctxs: map<nat, Context>, c: nat, pa: int) {
    forall d :: d in ctxs && pa in ctxs[d].pages ==> d == c
  }

  ghost predicate Counted(pool: Pool, ctxs: map<nat, Context>, pa: int) {
    pa in pool.refs && pool.refs[pa] == |Trackers(ctxs, pa)|
  }

  /** Each owned page is counted once per context that tracks it. */
  ghost predicate LedgerInv(pool: Pool, ctxs: map<nat, Context>) {
    && pool.Valid()
    && (forall c :: c in ctxs ==> NoDup(ctxs[c].pages) && |ctxs[c].pages| <= MAX_TRACKED)
    && (forall c, pa :: c in ctxs && pa in ctxs[c].pages ==> Counted(pool, ctxs, pa))
  }

  /** Live contexts hold distinct ASIDs in 1..255. */
  ghost predicate AsidInv(ctxs: map<nat, Context>) {
    && (forall c :: c in ctxs ==> 1 <= ctxs[c].asid <= 255)
    && (forall c, d :: c in ctxs && d in ctxs && ctxs[c].asid == ctxs[d].asid ==> c == d)
  }

  // ---------------------------------------------------------------- tables

  ghost predicate PathOk(p: Path, n: nat) {
    |p| == n && forall k :: 0 <= k < |p| ==> p[k] < ENTRIES
  }

  /** A table other than a root is linked from the table its parent's path names. */
  ghost predicate HangsAt(s: State, sh: Shape, p: int, at: Place) {
    if at.path == [] then at.ctx in s.ctxs && p == s.ctxs[at.ctx].root
    else
      var n := |at.path| - 1;
      && p in sh.parent && sh.parent[p] in sh.place
      && sh.place[sh.parent[p]] == Place(at.ctx, at.path[..n])
      && at.path[n] < ENTRIES
      && sh.parent[p] in s.tables && |s.tables[sh.parent[p]]| == ENTRIES
      && s.tables[sh.parent[p]][at.path[n]].Full? && s.tables[sh.parent[p]][at.path[n]].pa == p
  }

  ghost predicate TableAt(s: State, sh: Shape, p: int) {
    && p in sh.place && p in s.tables && |s.tables[p]| == ENTRIES
    && |sh.place[p].path| <= 3
    && sh.place[p].ctx in s.ctxs
    && p in s.ctxs[sh.place[p].ctx].pages
    && Exclusive(s.ctxs, sh.place[p].ctx, p)
  }

  /** What entry `i` of the table at `at` may hold. */
  ghost predicate EntryOk(s: State, sh: Shape, at: Place, i: nat, e: Desc) {
    match e
    case Invalid => true
    case Block(_, _) => false
    case Full(q, a) =>
      if |at.path| < 3 then
        q in sh.place && sh.place[q] == Place(at.ctx, at.path + [i]) && a == TABLE_ATTRS
      else
        && q !in sh.place
        && at.ctx in s.ctxs && q in s.ctxs[at.ctx].pages
        && q in s.frames && |s.frames[q]| == PAGE_SIZE
        && (at.ctx, q) in sh.home && sh.home[(at.ctx, q)] == at.path + [i]
        && (!a.ro ==> Exclusive(s.ctxs, at.ctx, q)) && Tagged(a)
  }

  ghost predicate TableInv(s: State, sh: Shape) {
    && (forall c :: c in s.ctxs ==>
          s.ctxs[c].root in sh.place && sh.place[s.ctxs[c].root] == Place(c, []))
    && (forall p :: p in sh.place ==> TableAt(s, sh, p))
    && (forall p :: p in sh.place ==> HangsAt(s, sh, p, sh.place[p]))
    && (forall p, i :: p in sh.place && 0 <= i < ENTRIES ==> EntryOk(s, sh, sh.place[p], i, s.tables[p][i]))
  }

  ghost predicate Inv(pool: Pool, s: State, sh: Shape) {
    LedgerInv(pool, s.ctxs) && AsidInv(s.ctxs) && TableInv(s, sh)
  }

  // ---------------------------------------------------------------- walks

  /** The table reached from `p` along `path`. */
  function Descend(tables: map<int, seq<Desc>>, p: int, path: Path): Option<int>
    decreases |path|
  {
    if path == [] then Some(p)
    else if p in tables && |tables[p]| == ENTRIES && path[0] < ENTRIES && tables[p][path[0]].Full?
    then Descend(tables, tables[p][path[0]].pa, path[1..])
    else None
  }

  /** `mmu_resolve_user_page_desc` followed by the load of the entry it finds. */
  function LeafIn(tables: map<int, seq<Desc>>, root: int, path: Path): Desc
    requires |path| == 4
  {
    var l3 := Descend(tables, root, path[..3]);
    if l3.Some? && l3.value in tables && |tables[l3.value]| == ENTRIES && path[3] < ENTRIES
    then tables[l3.value][path[3]]
    else Invalid
  }

  function Leaf(s: State, c: nat, path: Path): Desc
    requires c in s.ctxs && |path| == 4
  {
    LeafIn(s.tables, s.ctxs[c].root, path)
  }

  /** A descent inside a well-formed tree ends at the table that hangs at that path. */
  lemma {:induction false} DescendPlace(s: State, sh: Shape, p: int, path: Path)
    requires TableInv(s, sh) && p in sh.place
    requires |sh.place[p].path| + |path| <= 3
    requires Descend(s.tables, p, path).Some?
    ensures var q := Descend(s.tables, p, path).value;
      q in sh.place && sh.place[q] == Place(sh.place[p].ctx, sh.place[p].path + path)
    decreases |path|
  {
    if path == [] {
      assert sh.place[p].path + path == sh.place[p].path;
    } else {
      var e := s.tables[p][path[0]];
      assert EntryOk(s, sh, sh.place[p], path[0], e);
      DescendPlace(s, sh, e.pa, path[1..]);
      assert (sh.place[p].path + [path[0]]) + path[1..] == sh.place[p].path + path;
    }
  }

  lemma {:induction false} DescendSplit(t: map<int, seq<Desc>>, p: int, a: Path, b: Path)
    ensures Descend(t, p, a + b) ==
      (if Descend(t, p, a).Some? then Descend(t, Descend(t, p, a).value, b) else None)
    decreases |a|
  {
    if a == [] {
      assert a + b == b;
    } else {
      assert (a + b)[1..] == a[1..] + b;
      if p in t && |t[p]| == ENTRIES && a[0] < ENTRIES && t[p][a[0]].Full? {
        DescendSplit(t, t[p][a[0]].pa, a[1..], b);
      }
    }
  }

  /** Every placed table is reached from its context's root along its path. */
  lemma {:induction false} Reached(s: State, sh: Shape, p: int)
    requires TableInv(s, sh) && p in sh.place
    ensures sh.place[p].ctx in s.ctxs
    ensures Descend(s.tables, s.ctxs[sh.place[p].ctx].root, sh.place[p].path) == Some(p)
    decreases |sh.place[p].path|
  {
    assert TableAt(s, sh, p);
    assert HangsAt(s, sh, p, sh.place[p]);
    var at := sh.place[p];
    if at.path != [] {
      var n := |at.path| - 1;
      var up := sh.parent[p];
      Reached(s, sh, up);
      assert at.path == at.path[..n] + [at.path[n]];
      DescendSplit(s.tables, s.ctxs[at.ctx].root, at.path[..n], [at.path[n]]);
    }
  }

  /** At most one table hangs at a place. */
  lemma Unique(s: State, sh: Shape, p: int, q: int)
    requires TableInv(s, sh) && p in sh.place && q in sh.place && sh.place[p] == sh.place[q]
    ensures p == q
  {
    Reached(s, sh, p);
    Reached(s, sh, q);
  }

  /** The tables of `c` before `full` keep the one entry a descent to it reads. */
  ghost predicate KeepsWay(s: State, sh: Shape, tables': map<int, seq<Desc>>, c: nat, full: Path) {
    && (forall q :: q in sh.place && sh.place[q].ctx == c && sh.place[q].path < full ==> q in tables' && |tables'[q]| == ENTRIES)
    && (forall q :: q in sh.place && sh.place[q].ctx == c && sh.place[q].path < full ==>
          var i := full[|sh.place[q].path|];
          i < ENTRIES && q in s.tables && i < |s.tables[q]| ==> tables'[q][i] == s.tables[q][i])
  }

  /** Where a table entry leads. */
  lemma ChildPlace(s: State, sh: Shape, p: int, i: nat)
    requires TableInv(s, sh) && p in sh.place && |sh.place[p].path| < 3 && i < ENTRIES
    ensures p in s.tables && |s.tables[p]| == ENTRIES
    ensures s.tables[p][i].Full? ==> s.tables[p][i].pa in sh.place && sh.place[s.tables[p][i].pa] == Place(sh.place[p].ctx, sh.place[p].path + [i])
  {
    assert TableAt(s, sh, p);
    assert EntryOk(s, sh, sh.place[p], i, s.tables[p][i]);
  }

  lemma SameEntry(s: State, sh: Shape, tables': map<int, seq<Desc>>, p: int, path: Path)
    requires p in sh.place && path != [] && KeepsWay(s, sh, tables', sh.place[p].ctx, sh.place[p].path + path)
    requires p in s.tables && |s.tables[p]| == ENTRIES
    ensures p in tables' && |tables'[p]| == ENTRIES && (path[0] < ENTRIES ==> tables'[p][path[0]] == s.tables[p][path[0]])
  {
    assert sh.place[p].path < sh.place[p].path + path;
  }

  /** A descent reads one entry of each table on its path. */
  lemma {:induction false} DescendFrame(s: State, sh: Shape, tables': map<int, seq<Desc>>, p: int, path: Path)
    requires TableInv(s, sh) && p in sh.place
    requires |sh.place[p].path| + |path| <= 3
    requires KeepsWay(s, sh, tables', sh.place[p].ctx, sh.place[p].path + path)
    ensures Descend(tables', p, path) == Descend(s.tables, p, path)
    decreases |path|
  {
    if path != [] {
      ChildPlace(s, sh, p, if path[0] < ENTRIES then path[0] else 0);
      SameEntry(s, sh, tables', p, path);
      if path[0] < ENTRIES && s.tables[p][path[0]].Full? {
        var e := s.tables[p][path[0]];
        assert sh.place[e.pa].path + path[1..] == sh.place[p].path + path;
        DescendFrame(s, sh, tables', e.pa, path[1..]);
      }
    }
  }

  /** The level-3 tables play no part in a descent. */
  lemma {:induction false} DescendFrameUpper(s: State, sh: Shape, tables': map<int, seq<Desc>>, p: int, path: Path)
    requires TableInv(s, sh) && p in sh.place
    requires |sh.place[p].path| + |path| <= 3
    requires forall q :: q in sh.place && |sh.place[q].path| < 3 && q in s.tables ==> q in tables' && tables'[q] == s.tables[q]
    ensures Descend(tables', p, path) == Descend(s.tables, p, path)
    decreases |path|
  {
    if path != [] {
      assert TableAt(s, sh, p);
      if path[0] < ENTRIES && s.tables[p][path[0]].Full? {
        assert EntryOk(s, sh, sh.place[p], path[0], s.tables[p][path[0]]);
        DescendFrameUpper(s, sh, tables', s.tables[p][path[0]].pa, path[1..]);
      }
    }
  }

  // ---------------------------------------------------------------- the steps

  function EmptyTable(): seq<Desc> { seq(ENTRIES, _ => Invalid) }

  function WithEntry(s: State, p: int, i: nat, e: Desc): State
    requires p in s.tables && i < |s.tables[p]|
  {
    s.(tables := s.tables[p := s.tables[p][i := e]])
  }

  /** No table entry of any context points at `pa`. */
  ghost predicate Unmapped(s: State, sh: Shape, pa: int) {
    && pa !in sh.place
    && forall p, i :: p in sh.place && p in s.tables && 0 <= i < |s.tables[p]| && s.tables[p][i].Full? ==> s.tables[p][i].pa != pa
  }

  ghost predicate UnmappedIn(s: State, sh: Shape, c: nat, pa: int) {
    && pa !in sh.place
    && forall p, i :: p in sh.place && sh.place[p].ctx == c && p in s.tables && 0 <= i < |s.tables[p]| && s.tables[p][i].Full? ==> s.tables[p][i].pa != pa
  }

  function Tracked(ctxs: map<nat, Context>, c: nat, pa: int): map<nat, Context>
    requires c in ctxs
  {
    ctxs[c := ctxs[c].(pages := ctxs[c].pages + [pa])]
  }

  /** A page nobody tracks is neither a table nor mapped. */
  lemma UntrackedIsUnmapped(s: State, sh: Shape, pa: int)
    requires TableInv(s, sh)
    requires forall c :: c in s.ctxs ==> pa !in s.ctxs[c].pages
    ensures Unmapped(s, sh, pa)
  {
    forall p | p in sh.place ensures p != pa && p in s.tables && |s.tables[p]| == ENTRIES {
      assert TableAt(s, sh, p);
    }
    forall p, i | p in sh.place && 0 <= i < ENTRIES && s.tables[p][i].Full? ensures s.tables[p][i].pa != pa {
      assert EntryOk(s, sh, sh.place[p], i, s.tables[p][i]);
    }
  }

  lemma FreshUntracked(pool: Pool, ctxs: map<nat, Context>, pa: int)
    requires LedgerInv(pool, ctxs) && pa !in pool.refs
    ensures forall c :: c in ctxs ==> pa !in ctxs[c].pages
  {
    forall c | c in ctxs ensures pa !in ctxs[c].pages {
      assert pa in ctxs[c].pages ==> Counted(pool, ctxs, pa);
    }
  }

  /** The page at the head of the free list, entered in a context's ledger. */
  lemma TrackFreshLedger(pool: Pool, ctxs: map<nat, Context>, c: nat)
    requires LedgerInv(pool, ctxs) && c in ctxs && pool.free != [] && |ctxs[c].pages| < MAX_TRACKED
    ensures var (pool', pa) := pool.Alloc();
      LedgerInv(pool', Tracked(ctxs, c, pa)) && Exclusive(Tracked(ctxs, c, pa), c, pa)
  {
    var (pool', pa) := pool.Alloc();
    var ctxs' := Tracked(ctxs, c, pa);
    FreshUntracked(pool, ctxs, pa);
    forall d, q | d in ctxs' && q in ctxs'[d].pages ensures Counted(pool', ctxs', q) {
      if q == pa {
        assert Trackers(ctxs', q) == {c};
      } else {
        assert Counted(pool, ctxs, q);
        assert Trackers(ctxs', q) == Trackers(ctxs, q);
      }
    }
  }

  /** Tracking one more page, not yet used, leaves the tables well formed. */
  lemma TrackTables(s: State, sh: Shape, c: nat, pa: int)
    requires TableInv(s, sh) && c in s.ctxs && Unmapped(s, sh, pa)
    ensures TableInv(s.(ctxs := Tracked(s.ctxs, c, pa)), sh)
  {
    var s' := s.(ctxs := Tracked(s.ctxs, c, pa));
    forall p | p in sh.place ensures TableAt(s', sh, p) && HangsAt(s', sh, p, sh.place[p]) {
      assert TableAt(s, sh, p) && HangsAt(s, sh, p, sh.place[p]);
    }
    forall p, i | p in sh.place && 0 <= i < ENTRIES
      ensures EntryOk(s', sh, sh.place[p], i, s'.tables[p][i])
    {
      assert TableAt(s, sh, p);
      assert EntryOk(s, sh, sh.place[p], i, s.tables[p][i]);
    }
  }

  lemma TrackFreshInv(pool: Pool, s: State, sh: Shape, c: nat)
    requires Inv(pool, s, sh) && c in s.ctxs && pool.free != [] && |s.ctxs[c].pages| < MAX_TRACKED
    ensures var (pool', pa) := pool.Alloc();
      var s' := s.(ctxs := Tracked(s.ctxs, c, pa));
      Inv(pool', s', sh) && Unmapped(s', sh, pa) && Exclusive(s'.ctxs, c, pa)
  {
    var (pool', pa) := pool.Alloc();
    TrackFreshLedger(pool, s.ctxs, c);
    FreshUntracked(pool, s.ctxs, pa);
    UntrackedIsUnmapped(s, sh, pa);
    TrackTables(s, sh, c, pa);
  }
}
