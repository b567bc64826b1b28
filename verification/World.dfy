/**
 The steps of the address-space code on the whole state at once.  Each keeps `Good`: the
 table, ledger and ASID invariants, the pages of other subsystems, and the agreement with
 the eager-copy machine.
 */
module World {
  import opened Descriptor
  import opened Pool
  import opened AddressSpace
  import opened TableSteps
  import opened ContextSteps
  import opened Coupling
  import opened Wrappers

  const ASID_MAX: nat := 255

  /** `outside` holds the pages of other subsystems, `all` every page there is. */
  datatype World = World(pool: Pool, s: State, asids: seq<bool>,
                         outside: map<int, nat>, all: set<int>, eager: Eager)

  ghost function AsidsOf(ctxs: map<nat, Context>): set<nat> {
    set c | c in ctxs :: ctxs[c].asid
  }

  /** The bitmap holds the ASIDs of the live contexts and of nothing else. */
  ghost predicate AsidBits(asids: seq<bool>, ctxs: map<nat, Context>) {
    |asids| == ASID_MAX + 1 && forall a :: 1 <= a <= ASID_MAX ==> (asids[a] <==> a in AsidsOf(ctxs))
  }

  ghost predicate Rules(w: World, sh: Shape) {
    && Inv(w.pool, w.s, sh)
    && Conserved(w.pool, w.s.ctxs, w.outside)
    && Matches(w.s, w.eager)
    && AsidBits(w.asids, w.s.ctxs)
  }

  /** `Rules`, sealed: a proof that only passes it on does not see it, one that calls `Unfold` does. */
  ghost predicate Sealed(n: nat, w: World, sh: Shape)
    decreases n
  {
    if n == 0 then Rules(w, sh) else Sealed(n - 1, w, sh)
  }

  lemma {:induction false} Unseal(n: nat, w: World, sh: Shape)
    ensures Sealed(n, w, sh) <==> Rules(w, sh)
  {
    if n > 0 {
      Unseal(n - 1, w, sh);
    }
  }

  lemma Unfold(w: World, sh: Shape)
    ensures Sealed(|w.asids|, w, sh) <==> Rules(w, sh)
  {
    Unseal(|w.asids|, w, sh);
  }

  /** The invariant of the address-space code. */
  ghost predicate Good(w: World, sh: Shape) {
    && w.pool.Valid() && w.pool.Managed() == w.all
    && w.eager.Keys == w.s.ctxs.Keys && |w.asids| == ASID_MAX + 1
    && Sealed(|w.asids|, w, sh)
  }

  // ---------------------------------------------------------------- reading

  ghost predicate Table(w: World, sh: Shape, c: nat, t: int, path: Path) {
    && c in w.s.ctxs && t in sh.place && sh.place[t] == Place(c, path)
    && t in w.s.tables && |w.s.tables[t]| == ENTRIES && t != 0
  }

  lemma RootTable(w: World, sh: Shape, c: nat)
    requires Good(w, sh) && c in w.s.ctxs
    ensures Table(w, sh, c, w.s.ctxs[c].root, [])
  {
    Unfold(w, sh);
    var root := w.s.ctxs[c].root;
    assert TableAt(w.s, sh, root);
    assert Counted(w.pool, w.s.ctxs, root);
  }

  /** No reachable table holds a block, and a valid entry above level 3 leads to a table. */
  lemma EntryTable(w: World, sh: Shape, c: nat, t: int, path: Path, i: nat)
    requires Good(w, sh) && Table(w, sh, c, t, path) && i < ENTRIES
    ensures !w.s.tables[t][i].Block?
    ensures |path| < 3 && w.s.tables[t][i].Full? ==> Table(w, sh, c, w.s.tables[t][i].pa, path + [i]) && w.s.tables[t][i].attrs == TABLE_ATTRS
    ensures |path| == 3 && w.s.tables[t][i].Full? ==> Tagged(w.s.tables[t][i].attrs)
  {
    Unfold(w, sh);
    var e := w.s.tables[t][i];
    assert EntryOk(w.s, sh, sh.place[t], i, e);
    if |path| < 3 && e.Full? {
      assert TableAt(w.s, sh, e.pa);
      assert Counted(w.pool, w.s.ctxs, e.pa);
    }
  }

  /** What a walk finds is the entry of the table that hangs at the path. */
  lemma TableLeaf(w: World, sh: Shape, c: nat, t: int, path: Path, i: nat)
    requires Good(w, sh) && Table(w, sh, c, t, path) && |path| == 3 && i < ENTRIES
    ensures Leaf(w.s, c, path + [i]) == w.s.tables[t][i]
  {
    Unfold(w, sh);
    assert LeafSlot(w.s, sh, c, t, i);
    LeafOfSlot(w.s, sh, c, t, i);
  }

  lemma LeafPage(w: World, sh: Shape, c: nat, full: Path)
    requires Good(w, sh) && c in w.s.ctxs && PathOk(full, 4)
    ensures !Leaf(w.s, c, full).Block?
    ensures Leaf(w.s, c, full).Full? <==> full in w.eager[c]
    ensures Leaf(w.s, c, full).Full? ==>
      var q := Leaf(w.s, c, full).pa;
      && q in w.s.ctxs[c].pages && q in w.pool.refs && q != 0
      && q in w.s.frames && |w.s.frames[q]| == PAGE_SIZE
      && w.eager[c][full] == UserPage(w.s.frames[q], RightsOf(Leaf(w.s, c, full).attrs))
  {
    Unfold(w, sh);
    LeafOk(w.s, sh, c, full);
    assert PageMatches(w.s, w.eager, c, full);
    if Leaf(w.s, c, full).Full? {
      assert Counted(w.pool, w.s.ctxs, Leaf(w.s, c, full).pa);
    }
  }

  // ---------------------------------------------------------------- taking a page

  /** A page only `c` tracks, filled, and mapped nowhere; 0 stands for none. */
  ghost predicate Kept(w: World, sh: Shape, c: nat, q: int) {
    q != 0 ==> Pending(w.s, sh, c, q)
  }

  lemma KeptOnce(w: World, sh: Shape, c: nat, q: int)
    requires Good(w, sh) && q != 0 && Kept(w, sh, c, q)
    ensures w.pool.RefGet(q) == 1
  {
    Unfold(w, sh);
    assert Counted(w.pool, w.s.ctxs, q);
    assert Trackers(w.s.ctxs, q) == {c};
  }

  lemma AsidsSame(asids: seq<bool>, ctxs: map<nat, Context>, ctxs': map<nat, Context>)
    requires AsidInv(ctxs) && AsidBits(asids, ctxs)
    requires ctxs'.Keys == ctxs.Keys && forall c :: c in ctxs ==> ctxs'[c].asid == ctxs[c].asid
    ensures AsidInv(ctxs') && AsidBits(asids, ctxs')
  {
    assert AsidsOf(ctxs') == AsidsOf(ctxs);
  }

  function TakenTable(w: World, c: nat): World
    requires w.pool.Valid() && c in w.s.ctxs
  {
    var (pool, pa) := w.pool.Alloc();
    w.(pool := pool, s := w.s.(ctxs := Tracked(w.s.ctxs, c, pa), tables := w.s.tables[pa := EmptyTable()]))
  }

  function TakenFrame(w: World, c: nat, b: Bytes): World
    requires w.pool.Valid() && c in w.s.ctxs
  {
    var (pool, pa) := w.pool.Alloc();
    w.(pool := pool, s := w.s.(ctxs := Tracked(w.s.ctxs, c, pa), frames := w.s.frames[pa := b]))
  }

  ghost predicate CanTake(w: World, c: nat) {
    c in w.s.ctxs && w.pool.free != [] && |w.s.ctxs[c].pages| < MAX_TRACKED
  }

  /** How many pages `c` can still take. */
  ghost function Room(w: World, c: nat): int
    requires c in w.s.ctxs
  {
    if |w.pool.free| <= MAX_TRACKED - |w.s.ctxs[c].pages| then |w.pool.free| else MAX_TRACKED - |w.s.ctxs[c].pages|
  }

  /** How many tables a walk from `t` along `path` would have to add. */
  function Missing(tables: map<int, seq<Desc>>, t: int, path: Path): nat
    decreases |path|
  {
    if path == [] then 0
    else if t in tables && path[0] < |tables[t]| && tables[t][path[0]].Full? then Missing(tables, tables[t][path[0]].pa, path[1..])
    else |path|
  }

  /** The tables missing, less the pages to be had: a walk that adds tables succeeds when this is not positive. */
  ghost function Lack(w: World, c: nat, t: int, path: Path): int
    requires c in w.s.ctxs
  {
    Missing(w.s.tables, t, path) - Room(w, c)
  }

  /** Free pages and tracked pages of `c` together: a page `c` takes moves from one to the other. */
  ghost function Stock(w: World, c: nat): int
    requires c in w.s.ctxs
  {
    |w.pool.free| + |w.s.ctxs[c].pages|
  }

  /** A page taken for data is one less for tables. */
  lemma FrameLack(w: World, c: nat, b: Bytes, path: Path)
    requires w.pool.Valid() && CanTake(w, c)
    ensures var w' := TakenFrame(w, c, b);
      && c in w'.s.ctxs && w'.s.ctxs[c].root == w.s.ctxs[c].root && Stock(w', c) == Stock(w, c)
      && Lack(w', c, w'.s.ctxs[c].root, path) == Lack(w, c, w.s.ctxs[c].root, path) + 1
  {
  }

  lemma {:induction false} MissingMost(tables: map<int, seq<Desc>>, t: int, path: Path)
    ensures Missing(tables, t, path) <= |path|
    decreases |path|
  {
    if path != [] && t in tables && path[0] < |tables[t]| && tables[t][path[0]].Full? {
      MissingMost(tables, tables[t][path[0]].pa, path[1..]);
    }
  }

  lemma LackMost(w: World, c: nat, t: int, path: Path)
    requires c in w.s.ctxs
    ensures Lack(w, c, t, path) <= |path| - Room(w, c)
  {
    MissingMost(w.s.tables, t, path);
  }

  lemma RoomLeft(w: World, sh: Shape, c: nat)
    requires Good(w, sh) && c in w.s.ctxs
    ensures Room(w, c) >= 0
  {
    Unfold(w, sh);
  }

  /** An added table costs one page and is empty, so the walk lacks what it lacked before. */
  lemma LackStep(w: World, sh: Shape, c: nat, t: int, path: Path, i: nat, rest: Path, attrs: Attrs)
    requires Good(w, sh) && Table(w, sh, c, t, path) && i < ENTRIES && w.s.tables[t][i] == Invalid
    ensures !CanTake(w, c) ==> Lack(w, c, t, [i] + rest) > 0
    ensures CanTake(w, c) ==> w.pool.Alloc().1 != t
    ensures CanTake(w, c) ==>
      Lack(LinkedTable(TakenTable(w, c), t, i, w.pool.Alloc().1, attrs), c, w.pool.Alloc().1, rest) == Lack(w, c, t, [i] + rest)
  {
    if CanTake(w, c) {
      TableCounted(w, sh, t);
      var q := w.pool.Alloc().1;
      MissingAll(LinkedTable(TakenTable(w, c), t, i, q, attrs).s.tables, q, rest);
    }
  }

  lemma TableCounted(w: World, sh: Shape, t: int)
    requires Good(w, sh) && t in sh.place
    ensures t in w.pool.refs
  {
    Unfold(w, sh);
    assert TableAt(w.s, sh, t);
    assert Counted(w.pool, w.s.ctxs, t);
  }

  lemma MissingAll(tables: map<int, seq<Desc>>, t: int, path: Path)
    requires t in tables && tables[t] == EmptyTable()
    ensures Missing(tables, t, path) == |path|
  {
  }

  /** The ledger half of taking a page, for tables and user pages alike. */
  lemma TakeInv(w: World, sh: Shape, c: nat)
    requires Good(w, sh) && w.pool.Valid() && CanTake(w, c)
    ensures var (pool, pa) := w.pool.Alloc(); var s1 := w.s.(ctxs := Tracked(w.s.ctxs, c, pa));
      && Inv(pool, s1, sh) && Unmapped(w.s, sh, pa) && Unmapped(s1, sh, pa) && Exclusive(s1.ctxs, c, pa)
      && AsidBits(w.asids, s1.ctxs)
  {
    Unfold(w, sh);
    var (pool, pa) := w.pool.Alloc();
    TrackFreshInv(w.pool, w.s, sh, c);
    FreshUntracked(w.pool, w.s.ctxs, pa);
    UntrackedIsUnmapped(w.s, sh, pa);
    AsidsSame(w.asids, w.s.ctxs, Tracked(w.s.ctxs, c, pa));
  }

  lemma TakeConserved(w: World, sh: Shape, c: nat)
    requires Good(w, sh) && CanTake(w, c)
    ensures var (pool, pa) := w.pool.Alloc(); Conserved(pool, Tracked(w.s.ctxs, c, pa), w.outside)
  {
    Unfold(w, sh);
    TrackFreshConserved(w.pool, w.s.ctxs, c, w.outside);
  }

  /** Nothing but page `pa` was written, and every root stayed. */
  ghost predicate OnlyPage(s: State, s': State, pa: int) {
    && s'.ctxs.Keys == s.ctxs.Keys && (forall c :: c in s.ctxs ==> s'.ctxs[c].root == s.ctxs[c].root)
    && (forall p :: p in s.tables && p != pa ==> p in s'.tables && s'.tables[p] == s.tables[p])
    && (forall p :: p in s.frames && p != pa ==> p in s'.frames && s'.frames[p] == s.frames[p])
  }

  lemma OutsideLeaf(s: State, sh: Shape, s': State, pa: int, d: nat, full: Path)
    requires TableInv(s, sh) && Unmapped(s, sh, pa) && OnlyPage(s, s', pa)
    requires d in s.ctxs && PathOk(full, 4)
    ensures Leaf(s', d, full) == Leaf(s, d, full)
    ensures Leaf(s, d, full).Full? ==> Leaf(s, d, full).pa != pa
  {
    assert forall p :: p in sh.place ==> TableAt(s, sh, p);
    LeafFrame(s, sh, s'.tables, d, full);
    LeafTable(s, sh, d, full);
  }

  /** Memory that no walk reaches may be written freely. */
  lemma OutsideMatches(s: State, sh: Shape, s': State, pa: int, eager: Eager)
    requires TableInv(s, sh) && Matches(s, eager) && Unmapped(s, sh, pa) && OnlyPage(s, s', pa)
    ensures Matches(s', eager)
  {
    forall d, full | d in s.ctxs && PathOk(full, 4)
      ensures Leaf(s', d, full) == Leaf(s, d, full) && !Leaf(s, d, full).Block?
      ensures Leaf(s, d, full).Full? ==> Leaf(s, d, full).pa != pa
    {
      OutsideLeaf(s, sh, s', pa, d, full);
      LeafOk(s, sh, d, full);
    }
    MatchesFrame(s, s', eager);
  }

  lemma TakeMatches(w: World, sh: Shape, s': State, pa: int)
    requires Good(w, sh) && Unmapped(w.s, sh, pa) && OnlyPage(w.s, s', pa)
    ensures Matches(s', w.eager)
  {
    Unfold(w, sh);
    OutsideMatches(w.s, sh, s', pa, w.eager);
  }

  lemma TakeTable(w: World, sh: Shape, c: nat, keep: int)
    requires Good(w, sh) && CanTake(w, c) && Kept(w, sh, c, keep)
    ensures Good(TakenTable(w, c), sh) && Blank(TakenTable(w, c).s, sh, c, w.pool.Alloc().1)
    ensures Kept(TakenTable(w, c), sh, c, keep) && keep != w.pool.Alloc().1
  {
    var (pool, pa) := w.pool.Alloc();
    var w' := TakenTable(w, c);
    TakeInv(w, sh, c);
    TakeConserved(w, sh, c);
    ClearInv(w.s.(ctxs := Tracked(w.s.ctxs, c, pa)), sh, pa, EmptyTable());
    TakeMatches(w, sh, w'.s, pa);
    if keep != 0 {
      KeepTracked(w, sh, c, keep, pa);
    }
    Unfold(TakenTable(w, c), sh);
  }

  lemma KeepTracked(w: World, sh: Shape, c: nat, keep: int, pa: int)
    requires Good(w, sh) && Pending(w.s, sh, c, keep) && pa !in w.pool.refs
    ensures keep != pa && Exclusive(Tracked(w.s.ctxs, c, pa), c, keep)
  {
    Unfold(w, sh);
    assert Counted(w.pool, w.s.ctxs, keep);
  }

  lemma TakeFrame(w: World, sh: Shape, c: nat, b: Bytes)
    requires Good(w, sh) && CanTake(w, c) && |b| == PAGE_SIZE
    ensures Good(TakenFrame(w, c, b), sh) && Pending(TakenFrame(w, c, b).s, sh, c, w.pool.Alloc().1)
  {
    var (pool, pa) := w.pool.Alloc();
    var w' := TakenFrame(w, c, b);
    TakeInv(w, sh, c);
    TakeConserved(w, sh, c);
    FillInv(w.s.(ctxs := Tracked(w.s.ctxs, c, pa)), sh, pa, b);
    TakeMatches(w, sh, w'.s, pa);
    Unfold(TakenFrame(w, c, b), sh);
  }

  /** A page still free may be written at will. */
  lemma FillFree(w: World, sh: Shape, pa: int, b: Bytes)
    requires Good(w, sh) && pa !in w.pool.refs && |b| == PAGE_SIZE
    ensures Good(w.(s := w.s.(frames := w.s.frames[pa := b])), sh)
  {
    Unfold(w, sh);
    FreshUntracked(w.pool, w.s.ctxs, pa);
    UntrackedIsUnmapped(w.s, sh, pa);
    FillInv(w.s, sh, pa, b);
    OutsideMatches(w.s, sh, w.s.(frames := w.s.frames[pa := b]), pa, w.eager);
    Unfold(w.(s := w.s.(frames := w.s.frames[pa := b])), sh);
  }

  // ---------------------------------------------------------------- tables

  function LinkedTable(w: World, t: int, i: nat, q: int, attrs: Attrs): World
    requires t in w.s.tables && i < |w.s.tables[t]|
  {
    w.(s := WithEntry(w.s, t, i, Full(q, attrs)))
  }

  lemma LinkRules(w: World, sh: Shape, c: nat, t: int, i: nat, q: int, attrs: Attrs)
    requires Good(w, sh) && OpenSlot(w.s, sh, c, t, i) && Blank(w.s, sh, c, q) && attrs == TABLE_ATTRS
    ensures Rules(LinkedTable(w, t, i, q, attrs), Linked(sh, t, i, q))
  {
    Unfold(w, sh);
    LinkTableInv(w.s, sh, c, t, i, q, attrs);
    LinkMatches(w.s, sh, c, t, i, q, attrs, w.eager);
  }

  /** A blank page becomes the table under an empty entry; no address space can tell. */
  lemma LinkTable(w: World, sh: Shape, c: nat, t: int, path: Path, i: nat, q: int, attrs: Attrs, keep: int)
    requires Good(w, sh) && Table(w, sh, c, t, path) && |path| < 3 && i < ENTRIES
    requires w.s.tables[t][i] == Invalid && Blank(w.s, sh, c, q) && q != 0 && attrs == TABLE_ATTRS
    requires Kept(w, sh, c, keep) && keep != q
    ensures Good(LinkedTable(w, t, i, q, attrs), Linked(sh, t, i, q))
    ensures Table(LinkedTable(w, t, i, q, attrs), Linked(sh, t, i, q), c, q, path + [i])
    ensures Kept(LinkedTable(w, t, i, q, attrs), Linked(sh, t, i, q), c, keep)
  {
    LinkRules(w, sh, c, t, i, q, attrs);
    Unfold(LinkedTable(w, t, i, q, attrs), Linked(sh, t, i, q));
  }

  lemma LinkMatches(s: State, sh: Shape, c: nat, t: int, i: nat, q: int, attrs: Attrs, eager: Eager)
    requires TableInv(s, sh) && Matches(s, eager) && OpenSlot(s, sh, c, t, i) && Blank(s, sh, c, q) && attrs == TABLE_ATTRS
    ensures Matches(WithEntry(s, t, i, Full(q, attrs)), eager)
  {
    var s' := WithEntry(s, t, i, Full(q, attrs));
    forall d, full | d in s.ctxs && PathOk(full, 4)
      ensures Leaf(s', d, full) == Leaf(s, d, full) && !Leaf(s, d, full).Block?
    {
      LinkTableLeaf(s, sh, c, t, i, q, attrs, d, full);
      LeafOk(s, sh, d, full);
    }
    MatchesFrame(s, s', eager);
  }

  // ---------------------------------------------------------------- dropping a page

  function Dropped(w: World, c: nat, q: int): World
    requires w.pool.Valid() && c in w.s.ctxs
  {
    w.(pool := w.pool.Free(q), s := w.s.(ctxs := Untracked(w.s.ctxs, c, q)))
  }

  lemma DropPage(w: World, sh: Shape, c: nat, q: int)
    requires Good(w, sh) && c in w.s.ctxs && q in w.s.ctxs[c].pages && UnmappedIn(w.s, sh, c, q)
    ensures Good(Dropped(w, c, q), sh)
  {
    Unfold(w, sh);
    UntrackInv(w.pool, w.s, sh, c, q);
    UntrackConserved(w.pool, w.s.ctxs, c, q, w.outside);
    AsidsSame(w.asids, w.s.ctxs, Untracked(w.s.ctxs, c, q));
    SameTablesMatch(w.s, sh, Dropped(w, c, q).s, w.eager);
    Unfold(Dropped(w, c, q), sh);
  }

  lemma SameTablesMatch(s: State, sh: Shape, s': State, eager: Eager)
    requires TableInv(s, sh) && Matches(s, eager)
    requires s'.tables == s.tables && s'.frames == s.frames && s'.ctxs.Keys == s.ctxs.Keys
    requires forall c :: c in s.ctxs ==> s'.ctxs[c].root == s.ctxs[c].root
    ensures Matches(s', eager)
  {
    forall d, full | d in s.ctxs && PathOk(full, 4) ensures !Leaf(s, d, full).Block? {
      LeafOk(s, sh, d, full);
    }
    MatchesFrame(s, s', eager);
  }

  // ---------------------------------------------------------------- mapping

  function MappedPage(w: World, c: nat, l3: int, path: Path, i: nat, q: int, attrs: Attrs): World
    requires l3 in w.s.tables && i < |w.s.tables[l3]| && c in w.eager && q in w.s.frames
  {
    w.(s := WithEntry(w.s, l3, i, Full(q, attrs)), eager := EagerMapped(w.eager, c, path + [i], UserPage(w.s.frames[q], RightsOf(attrs))))
  }

  lemma MapTables(s: State, sh: Shape, c: nat, l3: int, i: nat, q: int, attrs: Attrs)
    requires TableInv(s, sh) && LeafSlot(s, sh, c, l3, i) && Pending(s, sh, c, q) && Tagged(attrs)
    ensures TableInv(WithEntry(s, l3, i, Full(q, attrs)), Rehomed(sh, c, q, sh.place[l3].path + [i]))
  {
    var sh' := Rehomed(sh, c, q, sh.place[l3].path + [i]);
    RehomeInv(s, sh, c, q, sh.place[l3].path + [i]);
    SetLeafInv(s, sh', c, l3, i, Full(q, attrs));
  }

  lemma MapMatches(s: State, sh: Shape, c: nat, l3: int, i: nat, q: int, attrs: Attrs, eager: Eager)
    requires TableInv(s, sh) && Matches(s, eager) && LeafSlot(s, sh, c, l3, i) && Pending(s, sh, c, q)
    requires PathOk(sh.place[l3].path, 3)
    ensures Matches(WithEntry(s, l3, i, Full(q, attrs)), EagerMapped(eager, c, sh.place[l3].path + [i], UserPage(s.frames[q], RightsOf(attrs))))
  {
    var s' := WithEntry(s, l3, i, Full(q, attrs));
    var here := sh.place[l3].path + [i];
    var eager' := EagerMapped(eager, c, here, UserPage(s.frames[q], RightsOf(attrs)));
    forall d, full | d in s.ctxs && PathOk(full, 4)
      ensures Leaf(s', d, full) == (if d == c && full == here then Full(q, attrs) else Leaf(s, d, full))
      ensures !Leaf(s, d, full).Block?
    {
      SetLeafLeaf(s, sh, c, l3, i, Full(q, attrs), d, full);
      LeafOk(s, sh, d, full);
    }
    assert PageMatches(s', eager', c, here);
    MatchesUpdate(s, s', eager, eager', c, here);
  }

  lemma MapPage(w: World, sh: Shape, c: nat, l3: int, path: Path, i: nat, q: int, attrs: Attrs)
    requires Good(w, sh) && Table(w, sh, c, l3, path) && PathOk(path, 3) && i < ENTRIES
    requires Pending(w.s, sh, c, q) && Tagged(attrs)
    ensures Good(MappedPage(w, c, l3, path, i, q, attrs), Rehomed(sh, c, q, path + [i]))
  {
    Unfold(w, sh);
    assert LeafSlot(w.s, sh, c, l3, i);
    MapTables(w.s, sh, c, l3, i, q, attrs);
    MapMatches(w.s, sh, c, l3, i, q, attrs, w.eager);
    Unfold(MappedPage(w, c, l3, path, i, q, attrs), Rehomed(sh, c, q, path + [i]));
  }

  /** The page an entry mapped is mapped nowhere in that context once the entry is gone. */
  lemma OldPageUnmapped(s: State, sh: Shape, c: nat, l3: int, i: nat, e: Desc)
    requires TableInv(s, sh) && LeafSlot(s, sh, c, l3, i) && s.tables[l3][i].Full?
    requires e.Full? ==> e.pa != s.tables[l3][i].pa
    ensures UnmappedIn(WithEntry(s, l3, i, e), sh, c, s.tables[l3][i].pa)
  {
    var q := s.tables[l3][i].pa;
    var s' := WithEntry(s, l3, i, e);
    assert EntryOk(s, sh, sh.place[l3], i, s.tables[l3][i]);
    forall p, k | p in sh.place && sh.place[p].ctx == c && p in s'.tables && 0 <= k < |s'.tables[p]| && s'.tables[p][k].Full?
      ensures s'.tables[p][k].pa != q
    {
      assert TableAt(s, sh, p);
      if !(p == l3 && k == i) && s.tables[p][k].pa == q {
        assert EntryOk(s, sh, sh.place[p], k, s.tables[p][k]);
        SameSlot(sh.place[p].path, k, sh.place[l3].path, i);
        Unique(s, sh, p, l3);
      }
    }
  }

  /** `OldPageUnmapped` for a replacement that keeps the invariant. */
  lemma ReplacedUnmapped(w: World, sh: Shape, c: nat, l3: int, path: Path, i: nat, q: int, attrs: Attrs)
    requires Good(w, sh) && Table(w, sh, c, l3, path) && |path| == 3 && i < ENTRIES && w.s.tables[l3][i].Full?
    requires Pending(w.s, sh, c, q) && c in w.eager
    ensures UnmappedIn(MappedPage(w, c, l3, path, i, q, attrs).s, Rehomed(sh, c, q, path + [i]), c, w.s.tables[l3][i].pa)
  {
    Unfold(w, sh);
    assert LeafSlot(w.s, sh, c, l3, i);
    OldPageUnmapped(w.s, sh, c, l3, i, Full(q, attrs));
  }

  function ClearedPage(w: World, c: nat, l3: int, path: Path, i: nat): World
    requires l3 in w.s.tables && i < |w.s.tables[l3]| && c in w.eager
  {
    w.(s := WithEntry(w.s, l3, i, Invalid), eager := EagerUnmapped(w.eager, c, path + [i]))
  }

  lemma ClearMatches(s: State, sh: Shape, c: nat, l3: int, i: nat, eager: Eager)
    requires TableInv(s, sh) && Matches(s, eager) && LeafSlot(s, sh, c, l3, i) && PathOk(sh.place[l3].path, 3)
    ensures Matches(WithEntry(s, l3, i, Invalid), EagerUnmapped(eager, c, sh.place[l3].path + [i]))
  {
    var s' := WithEntry(s, l3, i, Invalid);
    var here := sh.place[l3].path + [i];
    forall d, full | d in s.ctxs && PathOk(full, 4)
      ensures Leaf(s', d, full) == (if d == c && full == here then Invalid else Leaf(s, d, full))
      ensures !Leaf(s, d, full).Block?
    {
      SetLeafLeaf(s, sh, c, l3, i, Invalid, d, full);
      LeafOk(s, sh, d, full);
    }
    MatchesUpdate(s, s', eager, EagerUnmapped(eager, c, here), c, here);
  }

  lemma ClearPage(w: World, sh: Shape, c: nat, l3: int, path: Path, i: nat)
    requires Good(w, sh) && Table(w, sh, c, l3, path) && PathOk(path, 3) && i < ENTRIES
    ensures Good(ClearedPage(w, c, l3, path, i), sh)
  {
    Unfold(w, sh);
    assert LeafSlot(w.s, sh, c, l3, i);
    SetLeafInv(w.s, sh, c, l3, i, Invalid);
    ClearMatches(w.s, sh, c, l3, i, w.eager);
    Unfold(ClearedPage(w, c, l3, path, i), sh);
  }

  /** `OldPageUnmapped` for an entry that is cleared. */
  lemma ClearedUnmapped(w: World, sh: Shape, c: nat, l3: int, path: Path, i: nat)
    requires Good(w, sh) && Table(w, sh, c, l3, path) && |path| == 3 && i < ENTRIES && w.s.tables[l3][i].Full? && c in w.eager
    ensures UnmappedIn(ClearedPage(w, c, l3, path, i).s, sh, c, w.s.tables[l3][i].pa)
  {
    Unfold(w, sh);
    assert LeafSlot(w.s, sh, c, l3, i);
    OldPageUnmapped(w.s, sh, c, l3, i, Invalid);
  }

  // ---------------------------------------------------------------- copy-on-write

  function UpgradedPage(w: World, l3: int, i: nat): World
    requires l3 in w.s.tables && i < |w.s.tables[l3]| && w.s.tables[l3][i].Full?
  {
    w.(s := WithEntry(w.s, l3, i, Upgraded(w.s.tables[l3][i])))
  }

  /** A page counted once belongs to the context that maps it. */
  lemma CountedOnce(pool: Pool, ctxs: map<nat, Context>, c: nat, q: int)
    requires Counted(pool, ctxs, q) && pool.refs[q] == 1 && c in ctxs && q in ctxs[c].pages
    ensures Exclusive(ctxs, c, q)
  {
    forall d | d in ctxs && q in ctxs[d].pages ensures d == c {
      if d != c {
        assert {c, d} <= Trackers(ctxs, q);
        SubsetSize({c, d}, Trackers(ctxs, q));
      }
    }
  }

  /** A change that keeps the page and, in the end, the rights. */
  lemma AttrsMatch(s: State, sh: Shape, c: nat, l3: int, i: nat, e: Desc, eager: Eager)
    requires TableInv(s, sh) && Matches(s, eager) && LeafSlot(s, sh, c, l3, i)
    requires s.tables[l3][i].Full? && SamePage(e, s.tables[l3][i])
    ensures Matches(WithEntry(s, l3, i, e), eager)
  {
    var s' := WithEntry(s, l3, i, e);
    forall d, full | d in s.ctxs && PathOk(full, 4)
      ensures SamePage(Leaf(s', d, full), Leaf(s, d, full))
    {
      SetLeafLeaf(s, sh, c, l3, i, e, d, full);
      LeafOfSlot(s, sh, c, l3, i);
      LeafOk(s, sh, d, full);
    }
    MatchesFrame(s, s', eager);
  }

  lemma UpgradePage(w: World, sh: Shape, c: nat, l3: int, path: Path, i: nat)
    requires Good(w, sh) && Table(w, sh, c, l3, path) && |path| == 3 && i < ENTRIES
    requires w.s.tables[l3][i].Full? && w.s.tables[l3][i].attrs.cow && w.pool.RefGet(w.s.tables[l3][i].pa) == 1
    ensures Good(UpgradedPage(w, l3, i), sh)
  {
    Unfold(w, sh);
    var e := w.s.tables[l3][i];
    assert LeafSlot(w.s, sh, c, l3, i);
    assert EntryOk(w.s, sh, sh.place[l3], i, e);
    assert Counted(w.pool, w.s.ctxs, e.pa);
    CountedOnce(w.pool, w.s.ctxs, c, e.pa);
    SetLeafInv(w.s, sh, c, l3, i, Upgraded(e));
    AttrsMatch(w.s, sh, c, l3, i, Upgraded(e), w.eager);
    Unfold(UpgradedPage(w, l3, i), sh);
  }

  // ---------------------------------------------------------------- one leaf of a clone

  function ClonedPage(w: World, src: nat, dst: nat, ls: int, ld: int, path: Path, i: nat): World
    requires w.pool.Valid() && dst in w.s.ctxs && ls != ld && src in w.eager && dst in w.eager && path + [i] in w.eager[src]
    requires ls in w.s.tables && ld in w.s.tables && i < |w.s.tables[ls]| && i < |w.s.tables[ld]|
    requires w.s.tables[ls][i].Full?
  {
    w.(pool := w.pool.RefInc(w.s.tables[ls][i].pa), s := CloneLeaf(w.s, dst, ls, ld, i),
       eager := EagerShared(w.eager, src, dst, path + [i]))
  }

  lemma CloneMatches(s: State, sh: Shape, src: nat, dst: nat, ls: int, ld: int, i: nat, eager: Eager)
    requires TableInv(s, sh) && Matches(s, eager) && CloneSlots(s, sh, src, dst, ls, ld, i)
    requires PathOk(sh.place[ls].path, 3)
    ensures sh.place[ls].path + [i] in eager[src]
    ensures Matches(CloneLeaf(s, dst, ls, ld, i), EagerShared(eager, src, dst, sh.place[ls].path + [i]))
  {
    var s' := CloneLeaf(s, dst, ls, ld, i);
    var here := sh.place[ls].path + [i];
    LeafOfSlot(s, sh, src, ls, i);
    LeafOk(s, sh, src, here);
    assert PageMatches(s, eager, src, here);
    forall d, full | d in s.ctxs && PathOk(full, 4)
      ensures Leaf(s', d, full) ==
        (if (d == src || d == dst) && full == here then Cow(s.tables[ls][i]) else Leaf(s, d, full))
      ensures !Leaf(s, d, full).Block?
    {
      CloneLeafLeaf(s, sh, src, dst, ls, ld, i, d, full);
      LeafOk(s, sh, d, full);
    }
    SharedMatches(s, s', eager, src, dst, here, s.tables[ls][i]);
  }

  /** Both entries now hold the copy-on-write form of the parent's. */
  lemma SharedMatches(s: State, s': State, eager: Eager, src: nat, dst: nat, here: Path, e: Desc)
    requires Matches(s, eager) && s'.ctxs.Keys == s.ctxs.Keys && src in s.ctxs && dst in s.ctxs && src != dst && PathOk(here, 4)
    requires e.Full? && e.pa in s.frames && s'.frames == s.frames
    requires here in eager[src] && eager[src][here] == UserPage(s.frames[e.pa], RightsOf(e.attrs))
    requires forall d, full :: d in s.ctxs && PathOk(full, 4) ==>
      Leaf(s', d, full) == (if (d == src || d == dst) && full == here then Cow(e) else Leaf(s, d, full)) && !Leaf(s, d, full).Block?
    ensures Matches(s', EagerShared(eager, src, dst, here))
  {
    var eager' := EagerShared(eager, src, dst, here);
    assert eager'[src] == eager[src][here := Shared(eager[src][here])] && eager'[dst] == eager[dst][here := Shared(eager[src][here])];
    assert forall d :: d in eager && d != src && d != dst ==> eager'[d] == eager[d];
    forall d, path | d in s'.ctxs && PathOk(path, 4) ensures PageMatches(s', eager', d, path) {
      assert PageMatches(s, eager, d, path);
    }
  }

  lemma ClonePageInv(w: World, sh: Shape, src: nat, dst: nat, ls: int, ld: int, i: nat)
    requires Good(w, sh) && CloneSlots(w.s, sh, src, dst, ls, ld, i)
    ensures Inv(w.pool.RefInc(w.s.tables[ls][i].pa), CloneLeaf(w.s, dst, ls, ld, i),
                Rehomed(sh, dst, w.s.tables[ls][i].pa, sh.place[ls].path + [i]))
  {
    Unfold(w, sh);
    CloneLeafInv(w.pool, w.s, sh, src, dst, ls, ld, i);
  }

  lemma ClonePageLedger(w: World, sh: Shape, src: nat, dst: nat, ls: int, ld: int, i: nat)
    requires Good(w, sh) && CloneSlots(w.s, sh, src, dst, ls, ld, i)
    ensures Conserved(w.pool.RefInc(w.s.tables[ls][i].pa), Tracked(w.s.ctxs, dst, w.s.tables[ls][i].pa), w.outside)
    ensures AsidBits(w.asids, Tracked(w.s.ctxs, dst, w.s.tables[ls][i].pa))
  {
    Unfold(w, sh);
    var q := w.s.tables[ls][i].pa;
    OwnerTracks(w.s, sh, src, ls, i);
    ShareConserved(w.pool, w.s.ctxs, dst, q, src, w.outside);
    AsidsSame(w.asids, w.s.ctxs, Tracked(w.s.ctxs, dst, q));
  }

  lemma ClonePageMatches(w: World, sh: Shape, src: nat, dst: nat, ls: int, ld: int, i: nat)
    requires Good(w, sh) && CloneSlots(w.s, sh, src, dst, ls, ld, i) && PathOk(sh.place[ls].path, 3)
    ensures sh.place[ls].path + [i] in w.eager[src]
    ensures Matches(CloneLeaf(w.s, dst, ls, ld, i), EagerShared(w.eager, src, dst, sh.place[ls].path + [i]))
  {
    Unfold(w, sh);
    CloneMatches(w.s, sh, src, dst, ls, ld, i, w.eager);
  }

  /** One leaf is shared: the clone reads the owner's bytes there, and nothing else changes. */
  lemma ClonePage(w: World, sh: Shape, src: nat, dst: nat, ls: int, ld: int, path: Path, i: nat)
    requires Good(w, sh) && src != dst && Table(w, sh, src, ls, path) && Table(w, sh, dst, ld, path)
    requires PathOk(path, 3) && i < ENTRIES && w.s.tables[ls][i].Full?
    requires w.s.tables[ls][i].pa !in w.s.ctxs[dst].pages && |w.s.ctxs[dst].pages| < MAX_TRACKED
    ensures path + [i] in w.eager[src] && ls != ld
    ensures Good(ClonedPage(w, src, dst, ls, ld, path, i), Rehomed(sh, dst, w.s.tables[ls][i].pa, path + [i]))
  {
    assert CloneSlots(w.s, sh, src, dst, ls, ld, i);
    ClonePageInv(w, sh, src, dst, ls, ld, i);
    ClonePageLedger(w, sh, src, dst, ls, ld, i);
    ClonePageMatches(w, sh, src, dst, ls, ld, i);
    Unfold(ClonedPage(w, src, dst, ls, ld, path, i), Rehomed(sh, dst, w.s.tables[ls][i].pa, path + [i]));
  }

  // ---------------------------------------------------------------- writing bytes

  function WrittenPage(w: World, c: nat, full: Path, q: int, b: Bytes): World
    requires c in w.eager && full in w.eager[c]
  {
    w.(s := w.s.(frames := w.s.frames[q := b]), eager := EagerStored(w.eager, c, full, b))
  }

  /** A page that only `c` tracks is mapped only by `c`, and only once. */
  lemma SoleMapping(s: State, sh: Shape, c: nat, full: Path, d: nat, other: Path)
    requires TableInv(s, sh) && c in s.ctxs && d in s.ctxs && PathOk(full, 4) && PathOk(other, 4)
    requires Leaf(s, c, full).Full? && Exclusive(s.ctxs, c, Leaf(s, c, full).pa)
    requires Leaf(s, d, other).Full? && Leaf(s, d, other).pa == Leaf(s, c, full).pa
    ensures d == c && other == full
  {
    LeafOk(s, sh, d, other);
    LeafOk(s, sh, c, full);
  }

  lemma WriteMatches(s: State, sh: Shape, c: nat, full: Path, b: Bytes, eager: Eager)
    requires TableInv(s, sh) && Matches(s, eager) && c in s.ctxs && PathOk(full, 4)
    requires Leaf(s, c, full).Full? && Exclusive(s.ctxs, c, Leaf(s, c, full).pa)
    ensures full in eager[c] && Matches(s.(frames := s.frames[Leaf(s, c, full).pa := b]), EagerStored(eager, c, full, b))
  {
    var q := Leaf(s, c, full).pa;
    var s' := s.(frames := s.frames[q := b]);
    forall d, other | d in s.ctxs && PathOk(other, 4)
      ensures !Leaf(s, d, other).Block?
      ensures Leaf(s, d, other).Full? && !(d == c && other == full) ==> Leaf(s, d, other).pa != q
    {
      LeafOk(s, sh, d, other);
      if Leaf(s, d, other).Full? && Leaf(s, d, other).pa == q {
        SoleMapping(s, sh, c, full, d, other);
      }
    }
    assert PageMatches(s, eager, c, full);
    MatchesUpdate(s, s', eager, EagerStored(eager, c, full, b), c, full);
  }

  lemma WritePage(w: World, sh: Shape, c: nat, full: Path, b: Bytes)
    requires Good(w, sh) && c in w.s.ctxs && PathOk(full, 4) && |b| == PAGE_SIZE
    requires Leaf(w.s, c, full).Full? && !Leaf(w.s, c, full).attrs.ro
    ensures full in w.eager[c] && Good(WrittenPage(w, c, full, Leaf(w.s, c, full).pa, b), sh)
  {
    Unfold(w, sh);
    LeafOk(w.s, sh, c, full);
    FillInv(w.s, sh, Leaf(w.s, c, full).pa, b);
    WriteMatches(w.s, sh, c, full, b, w.eager);
    Unfold(WrittenPage(w, c, full, Leaf(w.s, c, full).pa, b), sh);
  }

  // ---------------------------------------------------------------- contexts

  function CreatedContext(w: World, c: nat, asid: nat): World
    requires w.pool.Valid() && asid < |w.asids|
  {
    var (pool, root) := w.pool.Alloc();
    w.(pool := pool, s := Created(w.s, c, asid, root), asids := w.asids[asid := true], eager := w.eager[c := map[]])
  }

  lemma CreatedMatches(s: State, sh: Shape, c: nat, asid: nat, root: int, eager: Eager)
    requires TableInv(s, sh) && Matches(s, eager) && c !in s.ctxs && root !in sh.place
    ensures Matches(Created(s, c, asid, root), eager[c := map[]])
  {
    var s' := Created(s, c, asid, root);
    var eager' := eager[c := map[]];
    forall d, full | d in s'.ctxs && PathOk(full, 4) ensures PageMatches(s', eager', d, full) {
      CreatedLeaf(s, sh, c, asid, root, d, full);
      if d != c {
        assert PageMatches(s, eager, d, full);
      }
    }
  }

  lemma CreatedAsids(asids: seq<bool>, s: State, c: nat, asid: nat, root: int)
    requires AsidBits(asids, s.ctxs) && c !in s.ctxs && 1 <= asid <= ASID_MAX && !asids[asid]
    ensures forall d :: d in s.ctxs ==> s.ctxs[d].asid != asid
    ensures AsidBits(asids[asid := true], Created(s, c, asid, root).ctxs)
  {
    var ctxs' := Created(s, c, asid, root).ctxs;
    assert asid !in AsidsOf(s.ctxs);
    forall d | d in s.ctxs ensures s.ctxs[d].asid != asid {
      assert s.ctxs[d].asid in AsidsOf(s.ctxs);
    }
    assert AsidsOf(ctxs') == AsidsOf(s.ctxs) + {asid} by {
      assert ctxs'[c].asid == asid;
      assert forall d :: d in s.ctxs ==> d in ctxs' && ctxs'[d].asid == s.ctxs[d].asid;
    }
  }

  lemma CreateRules(w: World, sh: Shape, c: nat, asid: nat)
    requires Good(w, sh) && c !in w.s.ctxs && w.pool.free != []
    requires 1 <= asid <= ASID_MAX && !w.asids[asid]
    ensures Rules(CreatedContext(w, c, asid), Rooted(sh, c, w.pool.Alloc().1))
  {
    Unfold(w, sh);
    var root := w.pool.Alloc().1;
    CreatedAsids(w.asids, w.s, c, asid, root);
    CreatedInv(w.pool, w.s, sh, c, asid);
    CreatedConserved(w.pool, w.s, c, asid, w.outside);
    FreshUntracked(w.pool, w.s.ctxs, root);
    UntrackedIsUnmapped(w.s, sh, root);
    CreatedMatches(w.s, sh, c, asid, root, w.eager);
  }

  /** A new context starts with a private root, a free ASID and nothing mapped. */
  lemma CreateContext(w: World, sh: Shape, c: nat, asid: nat)
    requires Good(w, sh) && c !in w.s.ctxs && w.pool.free != []
    requires 1 <= asid <= ASID_MAX && !w.asids[asid]
    ensures Good(CreatedContext(w, c, asid), Rooted(sh, c, w.pool.Alloc().1))
  {
    CreateRules(w, sh, c, asid);
    Unfold(CreatedContext(w, c, asid), Rooted(sh, c, w.pool.Alloc().1));
  }

  function ReleasedContext(w: World, c: nat): World
    requires w.pool.Valid() && c in w.s.ctxs && w.s.ctxs[c].asid < |w.asids|
  {
    w.(pool := FreeAll(w.pool, w.s.ctxs[c].pages), s := w.s.(ctxs := w.s.ctxs - {c}),
       asids := w.asids[w.s.ctxs[c].asid := false], eager := w.eager - {c})
  }

  lemma ReleasedAsids(asids: seq<bool>, ctxs: map<nat, Context>, c: nat)
    requires AsidInv(ctxs) && AsidBits(asids, ctxs) && c in ctxs
    ensures AsidBits(asids[ctxs[c].asid := false], ctxs - {c})
  {
    var ctxs' := ctxs - {c};
    assert AsidsOf(ctxs') == AsidsOf(ctxs) - {ctxs[c].asid} by {
      assert forall d :: d in ctxs && d != c ==> d in ctxs' && ctxs'[d].asid == ctxs[d].asid;
    }
  }

  lemma ReleasedMatches(s: State, c: nat, eager: Eager)
    requires Matches(s, eager) && c in s.ctxs
    ensures Matches(s.(ctxs := s.ctxs - {c}), eager - {c})
  {
    var s' := s.(ctxs := s.ctxs - {c});
    forall d, full | d in s'.ctxs && PathOk(full, 4) ensures PageMatches(s', eager - {c}, d, full) {
      assert PageMatches(s, eager, d, full);
    }
  }

  lemma ReleaseRules(w: World, sh: Shape, c: nat)
    requires Good(w, sh) && c in w.s.ctxs
    ensures w.s.ctxs[c].asid < |w.asids|
    ensures Rules(ReleasedContext(w, c), Pruned(sh, c))
  {
    Unfold(w, sh);
    ReleasedAsids(w.asids, w.s.ctxs, c);
    ReleasedInv(w.pool, w.s, sh, c);
    ReleasedConserved(w.pool, w.s.ctxs, c, w.outside);
    ReleasedMatches(w.s, c, w.eager);
  }

  /** The pages only this context tracked go back; the shared ones lose one reference. */
  lemma ReleaseContext(w: World, sh: Shape, c: nat)
    requires Good(w, sh) && c in w.s.ctxs
    ensures 1 <= w.s.ctxs[c].asid < |w.asids|
    ensures Good(ReleasedContext(w, c), Pruned(sh, c))
  {
    ReleaseRules(w, sh, c);
    LiveAsid(w, sh, c);
    Unfold(ReleasedContext(w, c), Pruned(sh, c));
  }

  lemma LiveAsid(w: World, sh: Shape, c: nat)
    requires Good(w, sh) && c in w.s.ctxs
    ensures 1 <= w.s.ctxs[c].asid <= ASID_MAX
  {
    Unfold(w, sh);
  }

  /** Nothing is mapped under an invalid entry. */
  lemma NoneUnder(w: World, sh: Shape, c: nat, t: int, path: Path, i: nat, full: Path)
    requires Good(w, sh) && Table(w, sh, c, t, path) && |path| <= 3 && i < ENTRIES
    requires w.s.tables[t][i] == Invalid && PathOk(full, 4) && path + [i] <= full
    ensures full !in w.eager[c]
  {
    Unfold(w, sh);
    assert PageMatches(w.s, w.eager, c, full);
    if |path| < 3 {
      assert path + [i] <= full[..3];
      assert OpenSlot(w.s, sh, c, t, i);
      NothingUnder(w.s, sh, c, t, i, full);
    } else {
      assert full == path + [i];
      assert LeafSlot(w.s, sh, c, t, i);
      LeafOfSlot(w.s, sh, c, t, i);
    }
  }

  /** The reference counts follow from the ledgers and the pages of others. */
  lemma CountsDetermined(w: World, sh: Shape, w': World, sh': Shape)
    requires Good(w, sh) && Good(w', sh') && w'.s.ctxs == w.s.ctxs && w'.outside == w.outside
    ensures w'.pool.refs == w.pool.refs
    ensures forall a :: 1 <= a <= ASID_MAX ==> w'.asids[a] == w.asids[a]
  {
    Unfold(w, sh);
    Unfold(w', sh');
    forall pa
      ensures pa in w.pool.refs ==> pa in w'.pool.refs && w'.pool.refs[pa] == w.pool.refs[pa]
      ensures pa in w'.pool.refs ==> pa in w.pool.refs
    {
      if c :| c in w.s.ctxs && pa in w.s.ctxs[c].pages {
        assert Counted(w.pool, w.s.ctxs, pa) && Counted(w'.pool, w.s.ctxs, pa);
      } else {
        assert pa in w.pool.refs ==> Foreign(w.pool, w.s.ctxs, pa);
        assert pa in w'.pool.refs ==> Foreign(w'.pool, w.s.ctxs, pa);
      }
    }
    assert w'.pool.refs == w.pool.refs;
  }

  // ---------------------------------------------------------------- other users of the pool

  /** Some other subsystem takes a page. */
  function OthersTook(w: World): World
    requires w.pool.Valid()
  {
    var (pool, pa) := w.pool.Alloc();
    w.(pool := pool, outside := w.outside[pa := 1])
  }

  lemma OthersTake(w: World, sh: Shape)
    requires Good(w, sh) && w.pool.free != []
    ensures Good(OthersTook(w), sh)
  {
    Unfold(w, sh);
    TakeForeign(w.pool, w.s.ctxs, w.outside, w.pool.Alloc().0, w.pool.Alloc().1);
    Unfold(OthersTook(w), sh);
  }

  /** Some other subsystem gives up a reference it holds. */
  function OthersGave(w: World, pa: int): World
    requires w.pool.Valid() && pa in w.outside
  {
    w.(pool := w.pool.Free(pa),
       outside := if w.outside[pa] > 1 then w.outside[pa := w.outside[pa] - 1] else w.outside - {pa})
  }

  lemma OthersGive(w: World, sh: Shape, pa: int)
    requires Good(w, sh) && pa in w.outside
    ensures Good(OthersGave(w, pa), sh)
  {
    Unfold(w, sh);
    GiveForeign(w.pool, w.s.ctxs, w.outside, pa);
    Unfold(OthersGave(w, pa), sh);
  }

  /** Before the first context: the pool as the rest of the kernel left it. */
  lemma Start(pool: Pool, frames: map<int, Bytes>)
    requires pool.Valid()
    ensures Good(World(pool, State(map[], map[], frames), seq(ASID_MAX + 1, _ => false), pool.refs, pool.Managed(), map[]),
                 Shape(map[], map[], map[]))
  {
    var w := World(pool, State(map[], map[], frames), seq(ASID_MAX + 1, _ => false), pool.refs, pool.Managed(), map[]);
    assert forall pa :: Foreign(pool, w.s.ctxs, pa) <==> pa in pool.refs;
    assert AsidsOf(w.s.ctxs) == {};
    Unfold(w, Shape(map[], map[], map[]));
  }
}
