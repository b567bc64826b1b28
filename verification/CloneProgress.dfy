/**
 How far a clone has come.  The walk visits a parent's tables depth first; `Progress` says
 that everything visited is mapped in the clone as in the parent, that nothing outside the
 subtree changed, and that the clone tracks no user page twice.
 */
module CloneProgress {
  import opened Descriptor
  import opened Pool
  import opened AddressSpace
  import opened TableSteps
  import opened ContextSteps
  import opened Coupling
  import opened World
  import opened Wrappers

  ghost predicate SameAt(m: map<Path, UserPage>, m': map<Path, UserPage>, full: Path) {
    (full in m <==> full in m') && (full in m ==> m[full] == m'[full])
  }

  /** The page at `full`, if any, was marked copy-on-write. */
  ghost predicate MarkedAt(m: map<Path, UserPage>, m': map<Path, UserPage>, full: Path) {
    (full in m <==> full in m') && (full in m ==> m'[full] == Shared(m[full]))
  }

  /** ... and the clone has it. */
  ghost predicate CopiedAt(m: map<Path, UserPage>, m': map<Path, UserPage>, copy: map<Path, UserPage>, full: Path) {
    MarkedAt(m, m', full) && SameAt(m', copy, full)
  }

  /** Pages were marked, and nothing else. */
  ghost predicate SomeMarked(m: map<Path, UserPage>, m': map<Path, UserPage>) {
    m'.Keys == m.Keys && forall full :: full in m ==> m'[full] == m[full] || m'[full] == Shared(m[full])
  }

  ghost function AllShared(m: map<Path, UserPage>): map<Path, UserPage> {
    map full | full in m :: Shared(m[full])
  }

  /** Every user page the clone tracks is one its parent maps, already mapped in the clone. */
  ghost predicate Following(w: World, sh: Shape, src: nat, dst: nat) {
    && src in w.s.ctxs && dst in w.s.ctxs && src != dst && src in w.eager && dst in w.eager
    && forall pa :: pa in w.s.ctxs[dst].pages && pa !in sh.place ==>
         (src, pa) in sh.home && sh.home[(src, pa)] in w.eager[dst]
  }

  /** The clone's map may change and its parent's be marked under `path`, the tables from depth `level` on; nothing else. */
  ghost predicate CloneFrame(w: World, sh: Shape, w': World, sh': Shape, src: nat, dst: nat, path: Path, level: nat) {
    && w'.eager.Keys == w.eager.Keys && src in w.eager && dst in w.eager && src != dst
    && w'.outside == w.outside && w'.all == w.all && w'.asids == w.asids
    && w'.s.ctxs.Keys == w.s.ctxs.Keys && (forall d :: d in w.s.ctxs && d != dst ==> w'.s.ctxs[d] == w.s.ctxs[d])
    && (forall d :: d in w.eager && d != src && d != dst ==> w'.eager[d] == w.eager[d])
    && SomeMarked(w.eager[src], w'.eager[src])
    && (forall full :: !(path <= full) ==> SameAt(w.eager[src], w'.eager[src], full) && SameAt(w.eager[dst], w'.eager[dst], full))
    && (forall p :: p in sh.place ==> p in sh'.place && sh'.place[p] == sh.place[p])
    && (forall p :: p in sh.place && |sh.place[p].path| < level && p in w.s.tables ==>
          p in w'.s.tables && w'.s.tables[p] == w.s.tables[p])
  }

  /** A walk of table `ts` into `td` that began in `w0` has finished the entries below `i`. */
  ghost predicate ProgressRules(w0: World, sh0: Shape, w: World, sh: Shape,
                                src: nat, dst: nat, ts: int, td: int, path: Path, i: nat) {
    && |path| <= 3 && PathOk(path, |path|) && i <= ENTRIES
    && Following(w, sh, src, dst)
    && Table(w, sh, src, ts, path) && Table(w, sh, dst, td, path)
    && CloneFrame(w0, sh0, w, sh, src, dst, path, |path|)
    && (forall k :: i <= k < ENTRIES ==> w.s.tables[td][k] == Invalid)
    && (forall full :: PathOk(full, 4) && path <= full && full[|path|] < i ==>
          CopiedAt(w0.eager[src], w.eager[src], w.eager[dst], full))
  }

  /** `ProgressRules` and the frame of a walk, sealed as `Rules` is. */
  ghost predicate SealedProgress(n: nat, w0: World, sh0: Shape, w: World, sh: Shape,
                                 src: nat, dst: nat, ts: int, td: int, path: Path, i: nat)
    decreases n
  {
    if n == 0 then ProgressRules(w0, sh0, w, sh, src, dst, ts, td, path, i)
    else SealedProgress(n - 1, w0, sh0, w, sh, src, dst, ts, td, path, i)
  }

  ghost predicate SealedFrame(n: nat, w0: World, sh0: Shape, w: World, sh: Shape, src: nat, dst: nat, path: Path)
    decreases n
  {
    if n == 0 then CloneFrame(w0, sh0, w, sh, src, dst, path, |path|)
    else SealedFrame(n - 1, w0, sh0, w, sh, src, dst, path)
  }

  lemma {:induction false} UnfoldProgress(n: nat, w0: World, sh0: Shape, w: World, sh: Shape,
                                          src: nat, dst: nat, ts: int, td: int, path: Path, i: nat)
    ensures SealedProgress(n, w0, sh0, w, sh, src, dst, ts, td, path, i)
       <==> ProgressRules(w0, sh0, w, sh, src, dst, ts, td, path, i)
  {
    if n > 0 {
      UnfoldProgress(n - 1, w0, sh0, w, sh, src, dst, ts, td, path, i);
    }
  }

  lemma {:induction false} UnfoldFrame(n: nat, w0: World, sh0: Shape, w: World, sh: Shape, src: nat, dst: nat, path: Path)
    ensures SealedFrame(n, w0, sh0, w, sh, src, dst, path) <==> CloneFrame(w0, sh0, w, sh, src, dst, path, |path|)
  {
    if n > 0 {
      UnfoldFrame(n - 1, w0, sh0, w, sh, src, dst, path);
    }
  }

  ghost predicate Progress(w0: World, sh0: Shape, w: World, sh: Shape,
                           src: nat, dst: nat, ts: int, td: int, path: Path, i: nat) {
    && ts in w.s.tables && td in w.s.tables && |w.s.tables[ts]| == |w.s.tables[td]| == ENTRIES && ts != td
    && src in w.s.ctxs && dst in w.s.ctxs && dst in w.eager && |path| <= 3 && td in sh.place
    && SealedProgress(|w.asids|, w0, sh0, w, sh, src, dst, ts, td, path, i)
  }

  /** What a walk that stopped early still guarantees. */
  ghost predicate Stopped(w0: World, sh0: Shape, w: World, sh: Shape, src: nat, dst: nat, path: Path) {
    SealedFrame(|w.asids|, w0, sh0, w, sh, src, dst, path)
  }

  lemma CloneFrameChain(w0: World, sh0: Shape, w1: World, sh1: Shape, w2: World, sh2: Shape,
                        src: nat, dst: nat, path: Path, level: nat, path': Path, level': nat)
    requires CloneFrame(w0, sh0, w1, sh1, src, dst, path, level)
    requires CloneFrame(w1, sh1, w2, sh2, src, dst, path', level')
    requires path <= path' && level <= level'
    ensures CloneFrame(w0, sh0, w2, sh2, src, dst, path, level)
  {
    forall full | !(path <= full) ensures SameAt(w0.eager[src], w2.eager[src], full) && SameAt(w0.eager[dst], w2.eager[dst], full) {
      assert !(path' <= full);
      assert SameAt(w0.eager[src], w1.eager[src], full) && SameAt(w1.eager[src], w2.eager[src], full);
      assert SameAt(w0.eager[dst], w1.eager[dst], full) && SameAt(w1.eager[dst], w2.eager[dst], full);
    }
  }

  /** What a proof can know of the entry it is about to visit. */
  lemma AtEntry(w0: World, sh0: Shape, w: World, sh: Shape,
                src: nat, dst: nat, ts: int, td: int, path: Path, i: nat)
    requires Good(w, sh) && Progress(w0, sh0, w, sh, src, dst, ts, td, path, i) && i < ENTRIES
    ensures !w.s.tables[ts][i].Block? && w.s.tables[td][i] == Invalid && PathOk(path, |path|)
    ensures Table(w, sh, src, ts, path) && Table(w, sh, dst, td, path) && Following(w, sh, src, dst)
    ensures |path| < 3 && w.s.tables[ts][i].Full? ==> Table(w, sh, src, w.s.tables[ts][i].pa, path + [i]) && w.s.tables[ts][i].attrs == TABLE_ATTRS
    ensures Stopped(w0, sh0, w, sh, src, dst, path)
  {
    UnfoldProgress(|w.asids|, w0, sh0, w, sh, src, dst, ts, td, path, i);
    UnfoldFrame(|w.asids|, w0, sh0, w, sh, src, dst, path);
    EntryTable(w, sh, src, ts, path, i);
  }

  lemma NoBlock(w0: World, sh0: Shape, w: World, sh: Shape,
                src: nat, dst: nat, ts: int, td: int, path: Path, i: nat)
    requires Good(w, sh) && Progress(w0, sh0, w, sh, src, dst, ts, td, path, i) && i < ENTRIES
    ensures !w.s.tables[ts][i].Block?
  {
    AtEntry(w0, sh0, w, sh, src, dst, ts, td, path, i);
  }

  // ---------------------------------------------------------------- starting and finishing

  lemma ProgressStart(w: World, sh: Shape, src: nat, dst: nat, ts: int, td: int, path: Path)
    requires |path| <= 3 && PathOk(path, |path|) && Following(w, sh, src, dst)
    requires Table(w, sh, src, ts, path) && Table(w, sh, dst, td, path) && w.s.tables[td] == EmptyTable()
    ensures Progress(w, sh, w, sh, src, dst, ts, td, path, 0)
  {
    UnfoldProgress(|w.asids|, w, sh, w, sh, src, dst, ts, td, path, 0);
  }

  /** After a whole walk from the roots the clone's map is its parent's, and every page is marked. */
  lemma WholeClone(w0: World, sh0: Shape, w: World, sh: Shape, src: nat, dst: nat, ts: int, td: int)
    requires Good(w, sh) && Progress(w0, sh0, w, sh, src, dst, ts, td, [], ENTRIES)
    ensures src in w0.eager && src in w.eager && dst in w.eager
    ensures w.eager[src] == AllShared(w0.eager[src]) && w.eager[dst] == w.eager[src]
  {
    WalkedAll(w0, sh0, w, sh, src, dst, ts, td);
    MapsEqual(w0.eager[src], w.eager[src], w.eager[dst]);
  }

  /** Every place is a page's place or empty in all three maps, and the walk has passed it. */
  lemma WalkedAll(w0: World, sh0: Shape, w: World, sh: Shape, src: nat, dst: nat, ts: int, td: int)
    requires Good(w, sh) && Progress(w0, sh0, w, sh, src, dst, ts, td, [], ENTRIES)
    ensures src in w0.eager && src in w.eager && dst in w.eager
    ensures forall full :: full in w.eager[src] || full in w.eager[dst] ==> PathOk(full, 4)
    ensures forall full :: PathOk(full, 4) ==> CopiedAt(w0.eager[src], w.eager[src], w.eager[dst], full)
    ensures w0.eager[src].Keys == w.eager[src].Keys
  {
    Unfold(w, sh);
    UnfoldProgress(|w.asids|, w0, sh0, w, sh, src, dst, ts, td, [], ENTRIES);
  }

  lemma MapsEqual(m: map<Path, UserPage>, m': map<Path, UserPage>, copy: map<Path, UserPage>)
    requires forall full :: full in m' || full in copy ==> PathOk(full, 4)
    requires forall full :: PathOk(full, 4) ==> CopiedAt(m, m', copy, full)
    requires m.Keys == m'.Keys
    ensures m' == AllShared(m) && copy == m'
  {
    forall full | full in m' || full in copy
      ensures full in m' && full in copy && m'[full] == Shared(m[full]) && copy[full] == m'[full]
    {
      assert CopiedAt(m, m', copy, full);
    }
  }

  /** The clone has its parent's map, its parent's pages are marked, and no other map changed. */
  lemma CloneDone(w0: World, sh0: Shape, w: World, sh: Shape, src: nat, dst: nat, ts: int, td: int)
    requires Good(w, sh) && Progress(w0, sh0, w, sh, src, dst, ts, td, [], ENTRIES)
    ensures src in w0.eager && w.eager == w0.eager[src := AllShared(w0.eager[src])][dst := AllShared(w0.eager[src])]
    ensures w.outside == w0.outside && w.all == w0.all && dst in w.s.ctxs && w.s.ctxs == w0.s.ctxs[dst := w.s.ctxs[dst]]
  {
    WholeClone(w0, sh0, w, sh, src, dst, ts, td);
    UnfoldProgress(|w.asids|, w0, sh0, w, sh, src, dst, ts, td, [], ENTRIES);
  }

  /** A clone that stopped changed nothing but itself and some marks of its parent's. */
  lemma CloneStopped(w0: World, sh0: Shape, w: World, sh: Shape, src: nat, dst: nat)
    requires Stopped(w0, sh0, w, sh, src, dst, [])
    ensures src in w0.eager && src in w.eager && SomeMarked(w0.eager[src], w.eager[src])
    ensures w.eager - {dst} == (w0.eager - {dst})[src := w.eager[src]] && w.s.ctxs - {dst} == w0.s.ctxs - {dst}
    ensures w.s.ctxs.Keys == w0.s.ctxs.Keys && w.outside == w0.outside && w.all == w0.all
  {
    UnfoldFrame(|w.asids|, w0, sh0, w, sh, src, dst, []);
  }

  /** The walk may begin as soon as the new context has its root. */
  lemma CloneStart(w: World, sh: Shape, w': World, sh': Shape, src: nat, dst: nat, root: int)
    requires Good(w, sh) && Good(w', sh') && src in w.s.ctxs && dst !in w.s.ctxs
    requires dst in w'.s.ctxs && w'.s.ctxs[dst].root == root && w'.s.ctxs[dst].pages == [root]
    requires src in w'.s.ctxs && w'.s.ctxs[src] == w.s.ctxs[src]
    requires root in w'.s.tables && w'.s.tables[root] == EmptyTable()
    ensures Progress(w', sh', w', sh', src, dst, w.s.ctxs[src].root, root, [], 0)
  {
    RootTable(w', sh', src);
    RootTable(w', sh', dst);
    ProgressStart(w', sh', src, dst, w.s.ctxs[src].root, root, []);
  }

  // ---------------------------------------------------------------- one more entry

  /** Nothing under an invalid entry, in either context. */
  lemma ProgressSkip(w0: World, sh0: Shape, w: World, sh: Shape,
                     src: nat, dst: nat, ts: int, td: int, path: Path, i: nat)
    requires Good(w, sh) && Progress(w0, sh0, w, sh, src, dst, ts, td, path, i) && i < ENTRIES
    requires w.s.tables[ts][i] == Invalid
    ensures Progress(w0, sh0, w, sh, src, dst, ts, td, path, i + 1)
  {
    AtEntry(w0, sh0, w, sh, src, dst, ts, td, path, i);
    UnfoldProgress(|w.asids|, w0, sh0, w, sh, src, dst, ts, td, path, i);
    forall full | PathOk(full, 4) && path <= full && full[|path|] == i
      ensures CopiedAt(w0.eager[src], w.eager[src], w.eager[dst], full)
    {
      assert path + [i] <= full;
      NoneUnder(w, sh, src, ts, path, i, full);
      NoneUnder(w, sh, dst, td, path, i, full);
    }
    UnfoldProgress(|w.asids|, w0, sh0, w, sh, src, dst, ts, td, path, i + 1);
  }

  /** The page a parent's leaf maps is not yet tracked by a clone that maps nothing there. */
  lemma NotYetShared(w: World, sh: Shape, src: nat, dst: nat, ls: int, ld: int, path: Path, i: nat)
    requires Good(w, sh) && Following(w, sh, src, dst)
    requires Table(w, sh, src, ls, path) && Table(w, sh, dst, ld, path) && PathOk(path, 3) && i < ENTRIES
    requires w.s.tables[ls][i].Full? && w.s.tables[ld][i] == Invalid
    ensures var q := w.s.tables[ls][i].pa;
      && q !in w.s.ctxs[dst].pages && q !in sh.place && q != 0
      && (src, q) in sh.home && sh.home[(src, q)] == path + [i]
      && path + [i] in w.eager[src]
  {
    NoneUnder(w, sh, dst, ld, path, i, path + [i]);
    TableLeaf(w, sh, src, ls, path, i);
    LeafPage(w, sh, src, path + [i]);
    LeafHome(w, sh, src, ls, path, i);
  }

  lemma LeafHome(w: World, sh: Shape, c: nat, t: int, path: Path, i: nat)
    requires Good(w, sh) && Table(w, sh, c, t, path) && |path| == 3 && i < ENTRIES && w.s.tables[t][i].Full?
    ensures var q := w.s.tables[t][i].pa;
      q !in sh.place && (c, q) in sh.home && sh.home[(c, q)] == path + [i]
  {
    Unfold(w, sh);
    assert EntryOk(w.s, sh, sh.place[t], i, w.s.tables[t][i]);
  }

  ghost predicate Sharing(w: World, sh: Shape, src: nat, dst: nat, ls: int, ld: int, path: Path, i: nat) {
    && Following(w, sh, src, dst) && PathOk(path, 3) && i < ENTRIES
    && Table(w, sh, src, ls, path) && Table(w, sh, dst, ld, path) && ls != ld
    && w.s.tables[ls][i].Full? && w.s.tables[ls][i].pa !in sh.place
    && (src, w.s.tables[ls][i].pa) in sh.home && sh.home[(src, w.s.tables[ls][i].pa)] == path + [i]
    && path + [i] in w.eager[src]
  }

  /** What sharing one leaf does, apart from keeping the invariant. */
  lemma ShareEffect(w: World, sh: Shape, src: nat, dst: nat, ls: int, ld: int, path: Path, i: nat)
    requires w.pool.Valid() && Sharing(w, sh, src, dst, ls, ld, path, i)
    ensures var w' := ClonedPage(w, src, dst, ls, ld, path, i);
      var sh' := Rehomed(sh, dst, w.s.tables[ls][i].pa, path + [i]);
      && Following(w', sh', src, dst) && CloneFrame(w, sh, w', sh', src, dst, path + [i], 3)
      && Table(w', sh', src, ls, path) && Table(w', sh', dst, ld, path)
      && CopiedAt(w.eager[src], w'.eager[src], w'.eager[dst], path + [i])
      && (forall k :: i < k < ENTRIES ==> w'.s.tables[ld][k] == w.s.tables[ld][k])
  {
    ShareFollows(w, sh, src, dst, ls, ld, path, i);
    ShareFrame(w, sh, src, dst, ls, ld, path, i);
  }

  lemma ShareFrame(w: World, sh: Shape, src: nat, dst: nat, ls: int, ld: int, path: Path, i: nat)
    requires w.pool.Valid() && Sharing(w, sh, src, dst, ls, ld, path, i)
    ensures var w' := ClonedPage(w, src, dst, ls, ld, path, i);
      var sh' := Rehomed(sh, dst, w.s.tables[ls][i].pa, path + [i]);
      CloneFrame(w, sh, w', sh', src, dst, path + [i], 3)
  {
    ShareMaps(w.eager, src, dst, path + [i]);
  }

  lemma ShareMaps(e: Eager, src: nat, dst: nat, here: Path)
    requires src in e && dst in e && src != dst && here in e[src]
    ensures var e' := EagerShared(e, src, dst, here);
      && e'.Keys == e.Keys && SomeMarked(e[src], e'[src])
      && (forall d :: d in e && d != src && d != dst ==> e'[d] == e[d])
      && (forall full :: !(here <= full) ==> SameAt(e[src], e'[src], full) && SameAt(e[dst], e'[dst], full))
  {
  }

  lemma ShareFollows(w: World, sh: Shape, src: nat, dst: nat, ls: int, ld: int, path: Path, i: nat)
    requires w.pool.Valid() && Sharing(w, sh, src, dst, ls, ld, path, i)
    ensures var w' := ClonedPage(w, src, dst, ls, ld, path, i);
      var sh' := Rehomed(sh, dst, w.s.tables[ls][i].pa, path + [i]);
      && Following(w', sh', src, dst)
      && Table(w', sh', src, ls, path) && Table(w', sh', dst, ld, path)
      && CopiedAt(w.eager[src], w'.eager[src], w'.eager[dst], path + [i])
  {
  }

  /** Agreement below `i` survives a change confined to entry `i`, and extends over it. */
  lemma ProgressExtend(w0: World, sh0: Shape, w: World, sh: Shape, w': World, sh': Shape,
                       src: nat, dst: nat, ts: int, td: int, path: Path, i: nat)
    requires ProgressRules(w0, sh0, w, sh, src, dst, ts, td, path, i) && i < ENTRIES && ts != td
    requires CloneFrame(w, sh, w', sh', src, dst, path + [i], |path|)
    requires Following(w', sh', src, dst) && Table(w', sh', src, ts, path) && Table(w', sh', dst, td, path)
    requires forall k :: i < k < ENTRIES ==> w'.s.tables[td][k] == Invalid
    requires forall full :: PathOk(full, 4) && path + [i] <= full ==> CopiedAt(w.eager[src], w'.eager[src], w'.eager[dst], full)
    ensures Progress(w0, sh0, w', sh', src, dst, ts, td, path, i + 1)
  {
    UnfoldProgress(|w'.asids|, w0, sh0, w', sh', src, dst, ts, td, path, i + 1);
    CloneFrameChain(w0, sh0, w, sh, w', sh', src, dst, path, |path|, path + [i], |path|);
    CopiedFurther(w0.eager[src], w.eager[src], w'.eager[src], w.eager[dst], w'.eager[dst], path, i);
  }

  /** The same of the maps alone. */
  lemma CopiedFurther(m0: map<Path, UserPage>, m: map<Path, UserPage>, m': map<Path, UserPage>,
                      copy: map<Path, UserPage>, copy': map<Path, UserPage>, path: Path, i: nat)
    requires |path| <= 3 && SomeMarked(m0, m)
    requires forall full :: PathOk(full, 4) && path <= full && full[|path|] < i ==> CopiedAt(m0, m, copy, full)
    requires forall full :: !(path + [i] <= full) ==> SameAt(m, m', full) && SameAt(copy, copy', full)
    requires forall full :: PathOk(full, 4) && path + [i] <= full ==> CopiedAt(m, m', copy', full)
    ensures forall full :: PathOk(full, 4) && path <= full && full[|path|] < i + 1 ==> CopiedAt(m0, m', copy', full)
  {
    forall full | PathOk(full, 4) && path <= full && full[|path|] < i + 1 ensures CopiedAt(m0, m', copy', full) {
      if full[|path|] == i {
        assert path + [i] <= full;
        assert CopiedAt(m, m', copy', full);
      } else {
        assert !(path + [i] <= full);
        assert CopiedAt(m0, m, copy, full);
        assert SameAt(m, m', full) && SameAt(copy, copy', full);
      }
    }
  }

  lemma ProgressShare(w0: World, sh0: Shape, w: World, sh: Shape,
                      src: nat, dst: nat, ts: int, td: int, path: Path, i: nat)
    requires Good(w, sh) && Progress(w0, sh0, w, sh, src, dst, ts, td, path, i) && |path| == 3 && i < ENTRIES
    requires w.s.tables[ts][i].Full? && |w.s.ctxs[dst].pages| < MAX_TRACKED
    ensures path + [i] in w.eager[src]
    ensures var w' := ClonedPage(w, src, dst, ts, td, path, i);
      var sh' := Rehomed(sh, dst, w.s.tables[ts][i].pa, path + [i]);
      Good(w', sh') && Progress(w0, sh0, w', sh', src, dst, ts, td, path, i + 1)
  {
    AtEntry(w0, sh0, w, sh, src, dst, ts, td, path, i);
    NotYetShared(w, sh, src, dst, ts, td, path, i);
    ClonePage(w, sh, src, dst, ts, td, path, i);
    ProgressShareRules(w0, sh0, w, sh, src, dst, ts, td, path, i);
  }

  lemma ProgressShareRules(w0: World, sh0: Shape, w: World, sh: Shape,
                           src: nat, dst: nat, ts: int, td: int, path: Path, i: nat)
    requires Progress(w0, sh0, w, sh, src, dst, ts, td, path, i)
    requires w.pool.Valid() && Sharing(w, sh, src, dst, ts, td, path, i)
    ensures Progress(w0, sh0, ClonedPage(w, src, dst, ts, td, path, i),
                     Rehomed(sh, dst, w.s.tables[ts][i].pa, path + [i]), src, dst, ts, td, path, i + 1)
  {
    UnfoldProgress(|w.asids|, w0, sh0, w, sh, src, dst, ts, td, path, i);
    var w' := ClonedPage(w, src, dst, ts, td, path, i);
    var sh' := Rehomed(sh, dst, w.s.tables[ts][i].pa, path + [i]);
    ShareEffect(w, sh, src, dst, ts, td, path, i);
    forall full | PathOk(full, 4) && path + [i] <= full ensures CopiedAt(w.eager[src], w'.eager[src], w'.eager[dst], full) {
      assert full == path + [i];
    }
    ProgressExtend(w0, sh0, w, sh, w', sh', src, dst, ts, td, path, i);
  }

  // ---------------------------------------------------------------- a table entry

  /** A table for the clone, taken and hung under entry `i` of `td`. */
  function TableHung(w: World, dst: nat, td: int, i: nat, attrs: Attrs): World
    requires w.pool.Valid() && dst in w.s.ctxs && td in w.s.tables && i < |w.s.tables[td]|
    requires td != w.pool.Alloc().1
  {
    LinkedTable(TakenTable(w, dst), td, i, w.pool.Alloc().1, attrs)
  }

  lemma HungEffect(w: World, sh: Shape, src: nat, dst: nat, ts: int, td: int, path: Path, i: nat, attrs: Attrs)
    requires w.pool.Valid() && CanTake(w, dst) && |path| < 3 && i < ENTRIES
    requires Following(w, sh, src, dst) && Table(w, sh, src, ts, path) && Table(w, sh, dst, td, path) && ts != td
    requires w.pool.Alloc().1 !in sh.place
    ensures var q := w.pool.Alloc().1;
      var w' := TableHung(w, dst, td, i, attrs);
      var sh' := Linked(sh, td, i, q);
      && Following(w', sh', src, dst) && CloneFrame(w, sh, w', sh', src, dst, path + [i], |path|)
      && Table(w', sh', src, ts, path) && Table(w', sh', dst, td, path)
      && Table(w', sh', dst, q, path + [i]) && w'.s.tables[q] == EmptyTable()
      && (forall k :: i < k < ENTRIES ==> w'.s.tables[td][k] == w.s.tables[td][k])
      && (forall p :: p in sh.place && p != td && p in w.s.tables ==> p in w'.s.tables && w'.s.tables[p] == w.s.tables[p])
  {
  }

  lemma FreshNotPlaced(w: World, sh: Shape, pa: int)
    requires Good(w, sh) && pa !in w.pool.refs
    ensures pa !in sh.place
  {
    Unfold(w, sh);
    FreshUntracked(w.pool, w.s.ctxs, pa);
    UntrackedIsUnmapped(w.s, sh, pa);
  }

  lemma HangTable(w0: World, sh0: Shape, w: World, sh: Shape,
                  src: nat, dst: nat, ts: int, td: int, path: Path, i: nat)
    requires Good(w, sh) && Progress(w0, sh0, w, sh, src, dst, ts, td, path, i) && |path| < 3 && i < ENTRIES
    requires w.s.tables[ts][i].Full? && CanTake(w, dst)
    ensures var q := w.pool.Alloc().1; q !in sh.place && q != td
    ensures var q := w.pool.Alloc().1;
      var w' := TableHung(w, dst, td, i, w.s.tables[ts][i].attrs);
      var sh' := Linked(sh, td, i, q);
      && Good(w', sh') && Following(w', sh', src, dst)
      && Progress(w', sh', w', sh', src, dst, w.s.tables[ts][i].pa, q, path + [i], 0)
  {
    AtEntry(w0, sh0, w, sh, src, dst, ts, td, path, i);
    var q := w.pool.Alloc().1;
    var e := w.s.tables[ts][i];
    FreshNotPlaced(w, sh, q);
    TakeTable(w, sh, dst, 0);
    LinkTable(TakenTable(w, dst), sh, dst, td, path, i, q, e.attrs, 0);
    HungEffect(w, sh, src, dst, ts, td, path, i, e.attrs);
    ProgressStart(TableHung(w, dst, td, i, e.attrs), Linked(sh, td, i, q), src, dst, e.pa, q, path + [i]);
  }

  /** The subtree is done, so entry `i` is. */
  lemma ProgressJoin(w0: World, sh0: Shape, w: World, sh: Shape, w2: World, sh2: Shape,
                     src: nat, dst: nat, ts: int, td: int, path: Path, i: nat, ns: int)
    requires w.pool.Valid() && Progress(w0, sh0, w, sh, src, dst, ts, td, path, i) && |path| < 3 && i < ENTRIES
    requires CanTake(w, dst) && w.s.tables[ts][i].Full? && w.pool.Alloc().1 !in sh.place && w.pool.Alloc().1 != td
    requires var q := w.pool.Alloc().1;
      Progress(TableHung(w, dst, td, i, w.s.tables[ts][i].attrs), Linked(sh, td, i, q), w2, sh2,
               src, dst, ns, q, path + [i], ENTRIES)
    ensures Progress(w0, sh0, w2, sh2, src, dst, ts, td, path, i + 1)
  {
    var q := w.pool.Alloc().1;
    var w1 := TableHung(w, dst, td, i, w.s.tables[ts][i].attrs);
    var sh1 := Linked(sh, td, i, q);
    UnfoldProgress(|w.asids|, w0, sh0, w, sh, src, dst, ts, td, path, i);
    UnfoldProgress(|w2.asids|, w1, sh1, w2, sh2, src, dst, ns, q, path + [i], ENTRIES);
    HungEffect(w, sh, src, dst, ts, td, path, i, w.s.tables[ts][i].attrs);
    CloneFrameChain(w, sh, w1, sh1, w2, sh2, src, dst, path + [i], |path|, path + [i], |path| + 1);
    forall full | PathOk(full, 4) && path + [i] <= full ensures CopiedAt(w.eager[src], w2.eager[src], w2.eager[dst], full) {
      assert full[|path| + 1] < ENTRIES;
    }
    ProgressExtend(w0, sh0, w, sh, w2, sh2, src, dst, ts, td, path, i);
  }

  lemma StopJoin(w0: World, sh0: Shape, w: World, sh: Shape, w2: World, sh2: Shape,
                 src: nat, dst: nat, ts: int, td: int, path: Path, i: nat)
    requires w.pool.Valid() && Progress(w0, sh0, w, sh, src, dst, ts, td, path, i) && |path| < 3 && i < ENTRIES
    requires CanTake(w, dst) && w.s.tables[ts][i].Full? && w.pool.Alloc().1 !in sh.place && w.pool.Alloc().1 != td
    requires Stopped(TableHung(w, dst, td, i, w.s.tables[ts][i].attrs), Linked(sh, td, i, w.pool.Alloc().1), w2, sh2,
                     src, dst, path + [i])
    ensures Stopped(w0, sh0, w2, sh2, src, dst, path)
  {
    var q := w.pool.Alloc().1;
    var w1 := TableHung(w, dst, td, i, w.s.tables[ts][i].attrs);
    var sh1 := Linked(sh, td, i, q);
    UnfoldProgress(|w.asids|, w0, sh0, w, sh, src, dst, ts, td, path, i);
    UnfoldFrame(|w2.asids|, w1, sh1, w2, sh2, src, dst, path + [i]);
    UnfoldFrame(|w2.asids|, w0, sh0, w2, sh2, src, dst, path);
    HungEffect(w, sh, src, dst, ts, td, path, i, w.s.tables[ts][i].attrs);
    CloneFrameChain(w, sh, w1, sh1, w2, sh2, src, dst, path + [i], |path|, path + [i], |path| + 1);
    CloneFrameChain(w0, sh0, w, sh, w2, sh2, src, dst, path, |path|, path + [i], |path|);
  }
}
