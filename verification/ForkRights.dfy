/**
 What a fork does to what the user may write.  The walk marks every page it visits
 copy-on-write, read-only ones too, and a write fault makes any marked page writable: a fork
 that succeeds does so for all pages, one that halts for those before the table it halted at.
 */
module ForkRights {
  import opened Descriptor
  import opened Pool
  import opened AddressSpace
  import opened TableSteps
  import opened Coupling
  import opened World
  import opened CloneProgress
  import opened PathOrder
  import opened CloneLeaves
  import opened CloneTally
  import opened Region
  import opened Mmu
  import opened Runs
  import opened Guarantees
  import opened Wrappers

  // ---------------------------------------------------------------- which rights survive

  /** A granted fork keeps the rights of an address space exactly if each of its pages was writable before. */
  lemma ForkKeepsRights(m: map<Path, UserPage>)
    ensures (forall p :: p in m ==> AllShared(m)[p].rights == m[p].rights) <==> forall p :: p in m ==> m[p].rights.write
    ensures forall p :: p in m ==> AllShared(m)[p].bytes == m[p].bytes
  {
    if forall p :: p in m ==> AllShared(m)[p].rights == m[p].rights {
      forall p | p in m ensures m[p].rights.write {
        assert AllShared(m)[p].rights == m[p].rights;
      }
    }
  }

  /** Once the walk begins, a refused fork halts at exactly one table, and marks exactly the pages before it. */
  lemma RefusedAt(w: World, sh: Shape, src: nat, h: nat) returns (stop: Path)
    requires Good(w, sh) && src in w.s.ctxs && Begins(w, h) && !CanClone(w, src, h)
    ensures StopsAt(w, src, stop) && forall other :: StopsAt(w, src, other) ==> other == stop
    ensures RefusedMarks(w, src, h) == set p | p in w.eager[src] && Precedes(p, stop)
  {
    stop := StopExists(w, sh, src);
    forall other | StopsAt(w, src, other) ensures other == stop {
      OneStop(w, sh, src, other, stop);
    }
  }

  /** So it keeps the rights exactly if every page before that table was writable. */
  lemma RefusedKeepsRights(w: World, sh: Shape, src: nat, h: nat) returns (stop: Path)
    requires Good(w, sh) && src in w.s.ctxs && Begins(w, h) && !CanClone(w, src, h)
    ensures StopsAt(w, src, stop)
    ensures var m := w.eager[src]; var m' := SharedOn(m, RefusedMarks(w, src, h));
      && (forall p :: p in m ==> m'[p].bytes == m[p].bytes)
      && ((forall p :: p in m ==> m'[p].rights == m[p].rights) <==> forall p :: p in m && Precedes(p, stop) ==> m[p].rights.write)
  {
    stop := RefusedAt(w, sh, src, h);
    var m := w.eager[src];
    var m' := SharedOn(m, RefusedMarks(w, src, h));
    if forall p :: p in m ==> m'[p].rights == m[p].rights {
      forall p | p in m && Precedes(p, stop) ensures m[p].rights.write {
        assert m'[p].rights == m[p].rights;
      }
    }
  }

  // ---------------------------------------------------------------- the table a fork halts at

  /** Paths of different tables, and how many of them come before a given one. */
  ghost function Earlier(s: set<Path>, p: Path): set<Path> { set q | q in s && Precedes(q, p) }

  lemma {:induction false} LastOf(s: set<Path>) returns (p: Path)
    requires s != {}
    ensures p in s && forall q :: q in s && q != p ==> Precedes(q, p)
    decreases |s|
  {
    p := Pick(s);
    if s != {p} {
      var r := LastOf(s - {p});
      Total(p, r);
      if Precedes(p, r) {
        p := r;
      } else {
        forall q | q in s && q != p ensures Precedes(q, p) {
          if q != r {
            Transitive(q, r, p);
          }
        }
      }
    }
  }

  /** In a set of paths there is one with exactly `k` before it. */
  lemma {:induction false} Nth(s: set<Path>, k: nat) returns (p: Path)
    requires k < |s|
    ensures p in s && |Earlier(s, p)| == k
    decreases |s|
  {
    var last := LastOf(s);
    if k == |s| - 1 {
      p := last;
      Irreflexive(last);
      assert Earlier(s, last) == s - {last};
    } else {
      p := Nth(s - {last}, k);
      if Precedes(last, p) {
        Transitive(p, last, p);
        Irreflexive(p);
      }
      assert Earlier(s, p) == Earlier(s - {last}, p);
    }
  }

  ghost function PathsOf(tables: map<int, Path>): set<Path> { set t | t in tables :: tables[t] }

  lemma {:induction false} SameSize(tables: map<int, Path>, ts: set<int>, ps: set<Path>)
    requires Distinct(tables) && ts <= tables.Keys && ps == set t | t in ts :: tables[t]
    ensures |ts| == |ps|
    decreases |ts|
  {
    if ts != {} {
      var t := Pick(ts);
      assert ps - {tables[t]} == set u | u in ts - {t} :: tables[u];
      SameSize(tables, ts - {t}, ps - {tables[t]});
    }
  }

  /** If there are fewer free pages than tables, there is a table for which they just run out. */
  lemma StopExists(w: World, sh: Shape, src: nat) returns (stop: Path)
    requires Good(w, sh) && src in w.s.ctxs && 0 < |w.pool.free| < |TablesUnder(w.s, src)|
    ensures StopsAt(w, src, stop)
  {
    var tables := TablesOf(sh, src);
    TablesAre(w, sh, src);
    TablesDistinct(w, sh, src);
    SameSize(tables, tables.Keys, PathsOf(tables));
    stop := Nth(PathsOf(tables), |w.pool.free|);
    var plan := Plan(0, tables, map[], map[]);
    TablesBeforeAre(w, sh, src, plan, stop);
    assert Earlier(PathsOf(tables), stop) == set t | t in TablesTo(plan, stop) :: tables[t];
    SameSize(tables, TablesTo(plan, stop), Earlier(PathsOf(tables), stop));
    var t :| t in tables && tables[t] == stop;
    TableFound(w, sh, src, t);
    assert stop != [] by {
      assert Earlier(PathsOf(tables), []) == {};
    }
  }

  // ---------------------------------------------------------------- a store before and after

  lemma CountIs(w: World, sh: Shape, c: nat, pa: int)
    requires Good(w, sh) && c in w.s.ctxs && pa in w.s.ctxs[c].pages
    ensures w.pool.RefGet(pa) == |Trackers(w.s.ctxs, pa)|
  {
    Unfold(w, sh);
    assert Counted(w.pool, w.s.ctxs, pa);
  }

  lemma TwoTrackers(w: World, sh: Shape, c: nat, d: nat, pa: int)
    requires Good(w, sh) && c in w.s.ctxs && d in w.s.ctxs && c != d && pa in w.s.ctxs[c].pages && pa in w.s.ctxs[d].pages
    ensures w.pool.RefGet(pa) > 1
  {
    CountIs(w, sh, c, pa);
    Subset({c, d}, Trackers(w.s.ctxs, pa));
  }

  lemma OneTracker(w: World, sh: Shape, c: nat, pa: int)
    requires Good(w, sh) && w.s.ctxs.Keys == {c} && pa in w.s.ctxs[c].pages
    ensures w.pool.RefGet(pa) == 1
  {
    CountIs(w, sh, c, pa);
    assert Trackers(w.s.ctxs, pa) == {c};
  }

  /** After a fork a page may be written exactly once there is a page for the copy. */
  lemma ReadyAfterFork(w: World, w': World, sh': Shape, c: nat, h: nat, full: Path)
    requires Good(w', sh') && c in w.s.ctxs && c in w.eager && full in w.eager[c] && PathOk(full, 4) && c != h
    requires c in w'.s.ctxs && h in w'.s.ctxs && full in w'.eager[c] && full in w'.eager[h]
    requires AllCow(LeavesOf(w.s, c, w.eager[c].Keys), w'.s, c, h)
    ensures CowReady(w', c, full) <==> CanTake(w', c)
  {
    assert full in LeavesOf(w.s, c, w.eager[c].Keys);
    LeafPage(w', sh', c, full);
    LeafPage(w', sh', h, full);
    TwoTrackers(w', sh', c, h, Leaf(w'.s, c, full).pa);
  }

  /**
   A page a user may read but not write: a store is refused and so is the fault it raises.
   After a fork the same fault is granted, and then the store, exactly if a page is left for
   the copy: more were free than the parent has tables, and its ledger is not full.
   */
  method WriteAfterFork(m: Mmu, c: nat, h: nat, va: nat, buf: Bytes)
    returns (before: Access, fault: bool, forked: bool, again: bool, after: Access)
    requires m.Valid() && c in m.ctxs && h !in m.ctxs
    requires Permits(m.eager, c, va, false) && !Permits(m.eager, c, va, true)
    modifies m
    ensures before.Denied? && !fault && (forked <==> CanClone(old(m.W()), c, h))
    ensures again <==> forked && |TablesUnder(old(m.W()).s, c)| < |old(m.pool).free| && |old(m.ctxs)[c].pages| < MAX_TRACKED
    ensures again ==> after.Done?
  {
    before, fault := Refused(m, c, va, buf);
    again, after := false, before;
    ghost var w := m.W();
    forked := m.ContextClone(c, h);
    if forked {
      ReadyAfterFork(w, m.W(), m.shape, c, h, PathOf(va));
      again, after := WriteAgain(m, c, va, buf);
    }
  }

  /** Neither the store nor the fault it raises gets anywhere. */
  method Refused(m: Mmu, c: nat, va: nat, buf: Bytes) returns (before: Access, fault: bool)
    requires m.Valid() && c in m.ctxs && Permits(m.eager, c, va, false) && !Permits(m.eager, c, va, true)
    modifies m
    ensures m.Valid() && m.W() == old(m.W()) && m.shape == old(m.shape) && before.Denied? && !fault
  {
    LeafPage(m.W(), m.shape, c, PathOf(va));
    var out;
    before, out := m.CopyChunk(c, va, buf, true);
    fault := m.CowFault(c, PathOf(va));
  }

  method WriteAgain(m: Mmu, c: nat, va: nat, buf: Bytes) returns (again: bool, after: Access)
    requires m.Valid() && c in m.ctxs && Permits(m.eager, c, va, true)
    modifies m
    ensures m.Valid() && (again <==> CowReady(old(m.W()), c, PathOf(va)))
    ensures again ==> after.Done?
  {
    LeafPage(m.W(), m.shape, c, PathOf(va));
    after := Missing;
    again := m.CowFault(c, PathOf(va));
    if again {
      var out;
      after, out := m.CopyChunk(c, va, buf, true);
    }
  }

  // ---------------------------------------------------------------- pages a halted fork always reaches

  lemma FirstPaths(p: Path)
    requires Precedes(p, [0, 0, 0])
    ensures p in {[], [0], [0, 0]}
  {
    var one, two: Path := [0], [0, 0];
    assert [] + [0] == one && one + [0] == two && two + [0] == [0, 0, 0];
    PrecedesEntry(p, two, 0);
    PrecedesEntry(p, one, 0);
    PrecedesEntry(p, [], 0);
  }

  lemma StopPast(stop: Path, full: Path)
    requires |stop| <= 3 && PathOk(full, 4) && full[..3] == [0, 0, 0] && !Precedes(full, stop)
    ensures stop == [0, 0, 0] || Precedes(stop, [0, 0, 0])
  {
    Total(full, stop);
    assert full == full[..3] + [full[3]];
    PrecedesEntry(stop, [0, 0, 0], full[3]);
  }

  /** With four pages free, a refused fork gets past every page of the first two megabytes. */
  lemma LowPagesMarked(w: World, sh: Shape, src: nat, h: nat, full: Path)
    requires Good(w, sh) && src in w.s.ctxs && Begins(w, h) && !CanClone(w, src, h) && |w.pool.free| >= 4
    requires full in w.eager[src] && PathOk(full, 4) && full[..3] == [0, 0, 0]
    ensures full in RefusedMarks(w, src, h)
  {
    var stop := RefusedAt(w, sh, src, h);
    if !Precedes(full, stop) {
      StopPast(stop, full);
      var tables := TablesOf(sh, src);
      var plan := Plan(0, tables, map[], map[]);
      TablesBeforeAre(w, sh, src, plan, stop);
      TablesDistinct(w, sh, src);
      var before := set t | t in TablesTo(plan, stop) :: tables[t];
      SameSize(tables, TablesTo(plan, stop), before);
      forall p | p in before ensures p in {[], [0], [0, 0]} {
        if stop != [0, 0, 0] {
          Transitive(p, stop, [0, 0, 0]);
        }
        FirstPaths(p);
      }
      Subset(before, {[], [0], [0, 0]});
    }
  }

  /** The tables above a mapped page. */
  lemma TableAbove(w: World, sh: Shape, c: nat, full: Path, n: nat)
    requires Good(w, sh) && c in w.s.ctxs && full in w.eager[c] && PathOk(full, 4) && n <= 3
    ensures full[..n] in PathsOf(TablesOf(sh, c))
  {
    LeafPage(w, sh, c, full);
    assert full[..3] == full[..n] + full[n..3];
    DescendSplit(w.s.tables, w.s.ctxs[c].root, full[..n], full[n..3]);
    FoundTable(w, sh, c, full[..n]);
  }

  lemma FiveTables(w: World, sh: Shape, c: nat, a: Path, b: Path)
    requires Good(w, sh) && c in w.s.ctxs && a in w.eager[c] && b in w.eager[c] && PathOk(a, 4) && PathOk(b, 4)
    requires a[..3] == [0, 0, 0] && b[..3] == [0, 0, 1]
    ensures |TablesUnder(w.s, c)| >= 5
  {
    var tables := TablesOf(sh, c);
    TablesAre(w, sh, c);
    TablesDistinct(w, sh, c);
    SameSize(tables, tables.Keys, PathsOf(tables));
    TableAbove(w, sh, c, a, 0);
    TableAbove(w, sh, c, a, 1);
    TableAbove(w, sh, c, a, 2);
    TableAbove(w, sh, c, a, 3);
    TableAbove(w, sh, c, b, 3);
    assert a[..2] == a[..3][..2] == [0, 0] && a[..1] == a[..3][..1] == [0];
    var five: set<Path> := {[], [0], [0, 0], [0, 0, 0], [0, 0, 1]};
    Subset(five, PathsOf(tables));
    FivePaths();
  }

  lemma FivePaths()
    ensures var five: set<Path> := {[], [0], [0, 0], [0, 0, 0], [0, 0, 1]}; |five| == 5
  {
    var e, a, b, c, d: Path := [], [0], [0, 0], [0, 0, 0], [0, 0, 1];
    assert |e| == 0 && |a| == 1 && |b| == 2 && c[2] != d[2];
    assert |{e, a}| == 2 && |{e, a, b}| == 3 && |{e, a, b, c}| == 4 && |{e, a, b, c, d}| == 5;
  }

  // ---------------------------------------------------------------- two runs from an empty machine

  const READ_ONLY := Attrs(true, true, false, 0x0060_0000_0000_0704)

  /** A region the user may only read, reaching into a second two megabytes. */
  const RODATA := Region(0x1_0000, 0x20_1000, Anon, READ_ONLY, None, 0, 0)

  lemma AsidHolder(w: World, sh: Shape, a: nat) returns (c: nat)
    requires Good(w, sh) && 1 <= a <= ASID_MAX && w.asids[a]
    ensures c in w.s.ctxs && w.s.ctxs[c].asid == a
  {
    Unfold(w, sh);
    c :| c in w.s.ctxs && w.s.ctxs[c].asid == a;
  }

  lemma FreeAsid(w: World, sh: Shape)
    requires Good(w, sh) && |w.s.ctxs| <= 1
    ensures exists a :: 1 <= a <= ASID_MAX && !w.asids[a]
  {
    if w.asids[1] && w.asids[2] {
      var c := AsidHolder(w, sh, 1);
      var d := AsidHolder(w, sh, 2);
      Subset({c, d}, w.s.ctxs.Keys);
    }
  }

  /** A machine with `n` free pages and one empty address space. */
  method Boot(n: nat) returns (m: Mmu)
    requires 0 < n
    ensures fresh(m) && m.Valid() && m.ctxs.Keys == {1} && m.eager == map[1 := map[]]
    ensures |m.pool.free| == n - 1 && |m.ctxs[1].pages| == 1
  {
    var pool := Pool(seq(n, i requires 0 <= i < n => (i + 1) * 4096), map[]);
    m := new Mmu(pool, map[]);
    FreeAsid(m.W(), m.shape);
    var ok := m.ContextCreate(1);
    assert ok;
    assert m.pool == Pool(pool.free[1..], map[][pool.free[0] := 1]);
  }

  /** A read of a page of the region brings it in, while four pages are free. */
  method ReadIn(m: Mmu, va: nat)
    requires m.Valid() && m.ctxs.Keys == {1} && RODATA.start <= va < RODATA.end && PathOf(va) !in m.eager[1]
    requires |m.pool.free| >= 4 && Stock(m.W(), 1) <= MAX_TRACKED
    modifies m
    ensures m.Valid() && m.ctxs.Keys == {1} && Stock(m.W(), 1) == old(Stock(m.W(), 1)) && |m.pool.free| >= |old(m.pool).free| - 4
    ensures PathOf(va) in m.eager[1] && m.eager[1][PathOf(va)].rights == Rights(true, false) && |m.eager[1][PathOf(va)].bytes| == PAGE_SIZE
    ensures forall p :: p in old(m.eager)[1] ==> p in m.eager[1] && m.eager[1][p] == old(m.eager)[1][p]
    ensures forall p :: p in m.eager[1] && p != PathOf(va) ==> p in old(m.eager)[1]
  {
    LackMost(m.W(), 1, m.ctxs[1].root, PathOf(va)[..3]);
    assert Deciding([RODATA], va) == Some(RODATA);
    var ok := m.TranslationFault(1, [RODATA], 0, va);
  }

  /** A store as the processor makes it: a refused one faults, and is made again if the fault is granted. */
  method Store(m: Mmu, c: nat, va: nat, buf: Bytes) returns (r: Access)
    requires m.Valid() && c in m.ctxs && Permits(m.eager, c, va, true)
    requires CowDue(m.W(), c, PathOf(va)) ==> CowReady(m.W(), c, PathOf(va))
    modifies m
    ensures m.Valid() && r.Done?
  {
    LeafPage(m.W(), m.shape, c, PathOf(va));
    var out;
    r, out := m.CopyChunk(c, va, buf, true);
    if r.Denied? {
      var again;
      again, r := WriteAgain(m, c, va, buf);
    }
  }

  /** Tables are tracked pages. */
  lemma TablesTracked(w: World, sh: Shape, c: nat)
    requires Good(w, sh) && c in w.s.ctxs
    ensures |TablesUnder(w.s, c)| <= |w.s.ctxs[c].pages|
  {
    TablesAre(w, sh, c);
    KeysDistinct(w, sh, c);
    var pages := w.s.ctxs[c].pages;
    forall t | t in TablesUnder(w.s, c) ensures t in Keys(sh, pages).Keys {
      TableTracked(w, sh, c, t);
    }
    Subset(TablesUnder(w.s, c), Keys(sh, pages).Keys);
    assert |Keys(sh, pages)| == |Keys(sh, pages).Keys|;
  }

  /**
   Twelve pages, one read-only page, one fork: the store that was denied before the fork
   is made after it.
   */
  method ForkMakesWritable(buf: Bytes) returns (before: Access, forked: bool, after: Access)
    ensures before.Denied? && forked && after.Done?
  {
    var m := Boot(12);
    ReadIn(m, 0x1_0000);
    FreeAsid(m.W(), m.shape);
    TablesTracked(m.W(), m.shape, 1);
    var fault, again;
    before, fault, forked, again, after := WriteAfterFork(m, 1, 2, 0x1_0000, buf);
  }

  /** Others take pages until four are free. */
  method TakeToFour(m: Mmu)
    requires m.Valid() && |m.pool.free| >= 4
    modifies m
    ensures m.Valid() && |m.pool.free| == 4 && m.ctxs == old(m.ctxs) && m.eager == old(m.eager)
  {
    while |m.pool.free| > 4
      invariant m.Valid() && |m.pool.free| >= 4 && m.ctxs == old(m.ctxs) && m.eager == old(m.eager)
      decreases |m.pool.free|
    {
      ghost var pool := m.pool;
      var pa := m.OthersAlloc();
      assert m.pool == Pool(pool.free[1..], pool.refs[pool.free[0] := 1]);
    }
  }

  /**
   Two read-only pages, in different two megabytes, and four free pages: the fork is refused
   for want of a fifth, and the store that was denied before it is made after it.
   */
  method RefusedForkMakesWritable(buf: Bytes) returns (before: Access, forked: bool, after: Access)
    ensures before.Denied? && !forked && after.Done?
  {
    var m := Boot(16);
    assert PathOf(0x1_0000) == [0, 0, 0, 16] && PathOf(0x20_0000) == [0, 0, 1, 0];
    ReadIn(m, 0x1_0000);
    ReadIn(m, 0x20_0000);
    TakeToFour(m);
    var fault;
    before, fault := Refused(m, 1, 0x1_0000, buf);
    forked := RefusedFork(m);
    LeafPage(m.W(), m.shape, 1, PathOf(0x1_0000));
    OneTracker(m.W(), m.shape, 1, Leaf(m.W().s, 1, PathOf(0x1_0000)).pa);
    after := Store(m, 1, 0x1_0000, buf);
  }

  method RefusedFork(m: Mmu) returns (forked: bool)
    requires m.Valid() && m.ctxs.Keys == {1} && |m.pool.free| == 4
    requires [0, 0, 0, 16] in m.eager[1] && [0, 0, 1, 0] in m.eager[1] && m.eager[1][[0, 0, 0, 16]].rights.el0
    modifies m
    ensures m.Valid() && !forked && m.ctxs.Keys == {1} && [0, 0, 0, 16] in m.eager[1]
    ensures m.eager[1][[0, 0, 0, 16]] == Shared(old(m.eager)[1][[0, 0, 0, 16]])
  {
    var low, high: Path := [0, 0, 0, 16], [0, 0, 1, 0];
    assert low[..3] == [0, 0, 0] && high[..3] == [0, 0, 1];
    FreeAsid(m.W(), m.shape);
    FiveTables(m.W(), m.shape, 1, low, high);
    LowPagesMarked(m.W(), m.shape, 1, 2, low);
    forked := m.ContextClone(1, 2);
  }
}
