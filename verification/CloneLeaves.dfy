/**
 The entries of a parent and its clone during the walk: those already visited are the
 copy-on-write form of what the parent's was, in both; the parent's others are unchanged.
 */
module CloneLeaves {
  import opened Descriptor
  import opened Pool
  import opened AddressSpace
  import opened TableSteps
  import opened ContextSteps
  import opened Coupling
  import opened World
  import opened CloneProgress
  import opened PathOrder
  import opened Wrappers

  /** From one entry to the next, what is passed is what hangs under it. */
  lemma NextEntry(p: Path, path: Path, i: nat)
    ensures Precedes(p, path + [i + 1]) <==> Precedes(p, path + [i]) || path + [i] <= p
    ensures path + [i] <= p ==> !Precedes(p, path + [i])
  {
    PrecedesEntry(p, path, i);
    PrecedesEntry(p, path, i + 1);
    assert path + [i] <= p <==> path <= p && p != path && p[|path|] == i;
  }

  /** Past its last entry the walk is past the table. */
  lemma LastEntry(p: Path, path: Path, i: nat)
    requires PathOk(p, |p|)
    ensures Precedes(p, path + [i] + [ENTRIES]) <==> Precedes(p, path + [i + 1])
  {
    PrecedesEntry(p, path + [i], ENTRIES);
    NextEntry(p, path, i);
  }

  /** The entries of a context at the given places. */
  ghost function LeavesOf(s: State, c: nat, places: set<Path>): map<Path, Desc>
    requires c in s.ctxs
  {
    map full | full in places && PathOk(full, 4) :: Leaf(s, c, full)
  }

  ghost predicate LeafTo(e: Desc, parents: Desc, clones: Desc, done: bool) {
    e.Full? && if done then parents == clones == Cow(e) else parents == e
  }

  ghost predicate LeavesTo(leaves: map<Path, Desc>, s: State, src: nat, dst: nat, at: Path) {
    && src in s.ctxs && dst in s.ctxs
    && forall full :: full in leaves ==> PathOk(full, 4) && LeafTo(leaves[full], Leaf(s, src, full), Leaf(s, dst, full), Precedes(full, at))
  }

  /** Every entry of the parent is copy-on-write now, and the clone's is the same. */
  ghost predicate AllCow(leaves: map<Path, Desc>, s: State, src: nat, dst: nat)
    requires src in s.ctxs && dst in s.ctxs
  {
    forall full :: full in leaves ==> PathOk(full, 4) && leaves[full].Full? && Leaf(s, src, full) == Leaf(s, dst, full) == Cow(leaves[full])
  }

  lemma StartLeaves(w: World, sh: Shape, src: nat, dst: nat)
    requires Good(w, sh) && src in w.s.ctxs && dst in w.s.ctxs
    ensures src in w.eager && LeavesTo(LeavesOf(w.s, src, w.eager[src].Keys), w.s, src, dst, [] + [0])
  {
    Unfold(w, sh);
    var leaves := LeavesOf(w.s, src, w.eager[src].Keys);
    forall full | full in leaves ensures LeafTo(leaves[full], Leaf(w.s, src, full), Leaf(w.s, dst, full), Precedes(full, [] + [0])) {
      LeafPage(w, sh, src, full);
      PrecedesEntry(full, [], 0);
    }
  }

  /** There is no entry of the parent's under an invalid one. */
  lemma SkipLeaves(leaves: map<Path, Desc>, w: World, sh: Shape, src: nat, dst: nat, ts: int, path: Path, i: nat)
    requires Good(w, sh) && LeavesTo(leaves, w.s, src, dst, path + [i])
    requires Table(w, sh, src, ts, path) && i < ENTRIES && w.s.tables[ts][i] == Invalid
    ensures LeavesTo(leaves, w.s, src, dst, path + [i + 1])
  {
    forall full | full in leaves ensures LeafTo(leaves[full], Leaf(w.s, src, full), Leaf(w.s, dst, full), Precedes(full, path + [i + 1])) {
      NextEntry(full, path, i);
      assert LeafTo(leaves[full], Leaf(w.s, src, full), Leaf(w.s, dst, full), Precedes(full, path + [i]));
      if path + [i] <= full {
        NoneUnder(w, sh, src, ts, path, i, full);
        LeafPage(w, sh, src, full);
      }
    }
  }

  lemma SharedLeaf(w: World, sh: Shape, src: nat, dst: nat, ls: int, ld: int, path: Path, i: nat, d: nat, full: Path)
    requires Good(w, sh) && Sharing(w, sh, src, dst, ls, ld, path, i) && d in w.s.ctxs && PathOk(full, 4)
    requires w.s.tables[ls][i].pa !in w.s.ctxs[dst].pages && |w.s.ctxs[dst].pages| < MAX_TRACKED
    ensures Leaf(CloneLeaf(w.s, dst, ls, ld, i), d, full) ==
      (if (d == src || d == dst) && full == path + [i] then Cow(w.s.tables[ls][i]) else Leaf(w.s, d, full))
  {
    Unfold(w, sh);
    CloneLeafLeaf(w.s, sh, src, dst, ls, ld, i, d, full);
  }

  lemma ShareLeaves(leaves: map<Path, Desc>, w: World, sh: Shape, src: nat, dst: nat, ls: int, ld: int, path: Path, i: nat)
    requires Good(w, sh) && Sharing(w, sh, src, dst, ls, ld, path, i) && LeavesTo(leaves, w.s, src, dst, path + [i])
    requires w.s.tables[ls][i].pa !in w.s.ctxs[dst].pages && |w.s.ctxs[dst].pages| < MAX_TRACKED
    ensures LeavesTo(leaves, CloneLeaf(w.s, dst, ls, ld, i), src, dst, path + [i + 1])
  {
    var s' := CloneLeaf(w.s, dst, ls, ld, i);
    TableLeaf(w, sh, src, ls, path, i);
    forall full | full in leaves ensures LeafTo(leaves[full], Leaf(s', src, full), Leaf(s', dst, full), Precedes(full, path + [i + 1])) {
      SharedLeaf(w, sh, src, dst, ls, ld, path, i, src, full);
      SharedLeaf(w, sh, src, dst, ls, ld, path, i, dst, full);
      NextEntry(full, path, i);
      assert LeafTo(leaves[full], Leaf(w.s, src, full), Leaf(w.s, dst, full), Precedes(full, path + [i]));
      assert path + [i] <= full <==> full == path + [i];
    }
  }

  /** A new empty table changes no entry of any context. */
  lemma HungLeaf(w: World, sh: Shape, dst: nat, td: int, path: Path, i: nat, attrs: Attrs, d: nat, full: Path)
    requires Good(w, sh) && CanTake(w, dst) && Table(w, sh, dst, td, path) && |path| < 3 && i < ENTRIES
    requires w.s.tables[td][i] == Invalid && td != w.pool.Alloc().1 && d in w.s.ctxs && PathOk(full, 4) && attrs == TABLE_ATTRS
    ensures Leaf(TableHung(w, dst, td, i, attrs).s, d, full) == Leaf(w.s, d, full)
  {
    var q, w1 := w.pool.Alloc().1, TakenTable(w, dst);
    TakenLeaf(w, sh, dst, d, full);
    TakeTable(w, sh, dst, 0);
    Unfold(w1, sh);
    assert OpenSlot(w1.s, sh, dst, td, i);
    LinkTableLeaf(w1.s, sh, dst, td, i, q, attrs, d, full);
  }

  lemma TakenLeaf(w: World, sh: Shape, c: nat, d: nat, full: Path)
    requires Good(w, sh) && CanTake(w, c) && d in w.s.ctxs && PathOk(full, 4)
    ensures Leaf(TakenTable(w, c).s, d, full) == Leaf(w.s, d, full)
  {
    TakeInv(w, sh, c);
    OutsideSame(w, sh, TakenTable(w, c).s, w.pool.Alloc().1, d, full);
  }

  lemma OutsideSame(w: World, sh: Shape, s': State, pa: int, d: nat, full: Path)
    requires Good(w, sh) && Unmapped(w.s, sh, pa) && OnlyPage(w.s, s', pa) && d in w.s.ctxs && PathOk(full, 4)
    ensures Leaf(s', d, full) == Leaf(w.s, d, full)
  {
    Unfold(w, sh);
    OutsideLeaf(w.s, sh, s', pa, d, full);
  }

  lemma HangLeaves(leaves: map<Path, Desc>, w: World, sh: Shape, src: nat, dst: nat, td: int, path: Path, i: nat, attrs: Attrs)
    requires Good(w, sh) && CanTake(w, dst) && Table(w, sh, dst, td, path) && |path| < 3 && i < ENTRIES
    requires w.s.tables[td][i] == Invalid && td != w.pool.Alloc().1 && LeavesTo(leaves, w.s, src, dst, path + [i]) && attrs == TABLE_ATTRS
    ensures LeavesTo(leaves, TableHung(w, dst, td, i, attrs).s, src, dst, path + [i] + [0])
  {
    var s' := TableHung(w, dst, td, i, attrs).s;
    forall full | full in leaves ensures LeafTo(leaves[full], Leaf(s', src, full), Leaf(s', dst, full), Precedes(full, path + [i] + [0])) {
      HungLeaf(w, sh, dst, td, path, i, attrs, src, full);
      HungLeaf(w, sh, dst, td, path, i, attrs, dst, full);
      PrecedesEntry(full, path + [i], 0);
      NextEntry(full, path, i);
      assert LeafTo(leaves[full], Leaf(w.s, src, full), Leaf(w.s, dst, full), Precedes(full, path + [i]));
    }
  }

  lemma JoinLeaves(leaves: map<Path, Desc>, s: State, src: nat, dst: nat, path: Path, i: nat)
    requires LeavesTo(leaves, s, src, dst, path + [i] + [ENTRIES])
    ensures LeavesTo(leaves, s, src, dst, path + [i + 1])
  {
    forall full | full in leaves ensures LeafTo(leaves[full], Leaf(s, src, full), Leaf(s, dst, full), Precedes(full, path + [i + 1])) {
      LastEntry(full, path, i);
      assert LeafTo(leaves[full], Leaf(s, src, full), Leaf(s, dst, full), Precedes(full, path + [i] + [ENTRIES]));
    }
  }

  lemma DoneLeaves(leaves: map<Path, Desc>, s: State, src: nat, dst: nat)
    requires LeavesTo(leaves, s, src, dst, [] + [ENTRIES])
    ensures AllCow(leaves, s, src, dst)
  {
    forall full | full in leaves ensures PathOk(full, 4) && LeafTo(leaves[full], Leaf(s, src, full), Leaf(s, dst, full), true) {
      PrecedesEntry(full, [], ENTRIES);
      assert LeafTo(leaves[full], Leaf(s, src, full), Leaf(s, dst, full), Precedes(full, [] + [ENTRIES]));
    }
  }
}
