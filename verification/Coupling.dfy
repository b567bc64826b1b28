/**
 The meaning of an address space and what must not change: the eager-copy machine that
 copy-on-write is compared with, and the pages that belong to other subsystems.
 */
module Coupling {
  import opened Descriptor
  import opened Pool
  import opened AddressSpace
  import opened TableSteps
  import opened ContextSteps
  import opened Wrappers

  /** What a user may do with a page: reach it, and write to it, at once or after a copy-on-write fault. */
  datatype Rights = Rights(el0: bool, write: bool)

  function RightsOf(a: Attrs): Rights { Rights(a.el0, !a.ro || a.cow) }

  datatype UserPage = UserPage(bytes: Bytes, rights: Rights)

  /** A fork marks every page copy-on-write, so that afterwards every page may be written. */
  function Shared(p: UserPage): UserPage { p.(rights := p.rights.(write := true)) }

  /** A machine with a private copy of every page: what each context maps, page by page. */
  type Eager = map<nat, map<Path, UserPage>>

  ghost predicate PageMatches(s: State, eager: Eager, c: nat, path: Path)
    requires c in s.ctxs && |path| == 4 && c in eager
  {
    var e := Leaf(s, c, path);
    && (e.Full? <==> path in eager[c])
    && (e.Full? ==> e.pa in s.frames && eager[c][path] == UserPage(s.frames[e.pa], RightsOf(e.attrs)))
  }

  /** Every context reads, at every virtual page, what it would read had forks copied eagerly. */
  ghost predicate Matches(s: State, eager: Eager) {
    && eager.Keys == s.ctxs.Keys
    && (forall c, path :: c in s.ctxs && PathOk(path, 4) ==> PageMatches(s, eager, c, path))
    && (forall c, path :: c in eager && path in eager[c] ==> PathOk(path, 4))
  }

  /** Two entries that are both invalid, or name the same page with the same rights in the end. */
  predicate SamePage(a: Desc, b: Desc) {
    (a == Invalid && b == Invalid) || (a.Full? && b.Full? && a.pa == b.pa && RightsOf(a.attrs) == RightsOf(b.attrs))
  }

  /** Allocated, but not owned by any address space. */
  ghost predicate Foreign(pool: Pool, ctxs: map<nat, Context>, pa: int) {
    pa in pool.refs && forall c :: c in ctxs ==> pa !in ctxs[c].pages
  }

  /** The pages of other subsystems and their counts are as in `outside`. */
  ghost predicate Conserved(pool: Pool, ctxs: map<nat, Context>, outside: map<int, nat>) {
    && (forall pa :: Foreign(pool, ctxs, pa) <==> pa in outside)
    && (forall pa :: pa in outside ==> pa in pool.refs && pool.refs[pa] == outside[pa])
  }

  lemma TrackFreshConserved(pool: Pool, ctxs: map<nat, Context>, c: nat, outside: map<int, nat>)
    requires LedgerInv(pool, ctxs) && c in ctxs && pool.free != [] && Conserved(pool, ctxs, outside)
    ensures Conserved(pool.Alloc().0, Tracked(ctxs, c, pool.Alloc().1), outside)
  {
    var (pool', pa) := pool.Alloc();
    var ctxs' := Tracked(ctxs, c, pa);
    assert pa in ctxs'[c].pages;
    forall x ensures Foreign(pool', ctxs', x) <==> Foreign(pool, ctxs, x) {
      if Foreign(pool', ctxs', x) {
        assert forall d :: d in ctxs ==> d in ctxs';
      }
    }
  }

  lemma UntrackConserved(pool: Pool, ctxs: map<nat, Context>, c: nat, q: int, outside: map<int, nat>)
    requires LedgerInv(pool, ctxs) && c in ctxs && q in ctxs[c].pages && Conserved(pool, ctxs, outside)
    ensures Conserved(pool.Free(q), Untracked(ctxs, c, q), outside)
  {
    var ctxs' := Untracked(ctxs, c, q);
    assert Counted(pool, ctxs, q);
    if pool.refs[q] > 1 {
      OtherTracker(ctxs, c, q);
    }
    forall x ensures Foreign(pool.Free(q), ctxs', x) <==> Foreign(pool, ctxs, x) {
      if x != q {
        assert forall d :: d in ctxs ==> (x in ctxs[d].pages <==> x in ctxs'[d].pages);
      } else if pool.refs[q] > 1 {
        var d :| d in ctxs && d != c && q in ctxs[d].pages;
        assert d in ctxs' && q in ctxs'[d].pages;
      }
    }
  }

  lemma OtherTracker(ctxs: map<nat, Context>, c: nat, q: int)
    requires |Trackers(ctxs, q)| > 1
    ensures exists d :: d in ctxs && d != c && q in ctxs[d].pages
  {
    if forall d :: d in Trackers(ctxs, q) ==> d == c {
      assert Trackers(ctxs, q) <= {c};
      SubsetSize(Trackers(ctxs, q), {c});
    }
  }

  lemma {:induction false} SubsetSize(a: set<nat>, b: set<nat>)
    requires a <= b
    ensures |a| <= |b|
    decreases a
  {
    if x :| x in a {
      SubsetSize(a - {x}, b - {x});
    }
  }

  lemma ShareConserved(pool: Pool, ctxs: map<nat, Context>, c: nat, q: int, owner: nat, outside: map<int, nat>)
    requires LedgerInv(pool, ctxs) && c in ctxs && owner in ctxs && q in ctxs[owner].pages
    requires Conserved(pool, ctxs, outside)
    ensures Conserved(pool.RefInc(q), Tracked(ctxs, c, q), outside)
  {
    var ctxs' := Tracked(ctxs, c, q);
    forall x ensures Foreign(pool.RefInc(q), ctxs', x) <==> Foreign(pool, ctxs, x) {
      assert x == q ==> owner in ctxs' && q in ctxs'[owner].pages;
      assert x != q ==> forall d :: d in ctxs ==> (x in ctxs[d].pages <==> x in ctxs'[d].pages);
    }
  }

  lemma CreatedConserved(pool: Pool, s: State, c: nat, asid: nat, outside: map<int, nat>)
    requires LedgerInv(pool, s.ctxs) && c !in s.ctxs && pool.free != [] && Conserved(pool, s.ctxs, outside)
    ensures Conserved(pool.Alloc().0, Created(s, c, asid, pool.Alloc().1).ctxs, outside)
  {
    var (pool', root) := pool.Alloc();
    var ctxs' := Created(s, c, asid, root).ctxs;
    assert root in ctxs'[c].pages;
    forall x ensures Foreign(pool', ctxs', x) <==> Foreign(pool, s.ctxs, x) {
      if Foreign(pool', ctxs', x) {
        assert forall d :: d in s.ctxs ==> d in ctxs';
      }
    }
  }

  lemma ReleasedForeign(pool: Pool, ctxs: map<nat, Context>, c: nat, x: int)
    requires LedgerInv(pool, ctxs) && c in ctxs
    ensures Foreign(FreeAll(pool, ctxs[c].pages), ctxs - {c}, x) <==> Foreign(pool, ctxs, x)
    ensures Foreign(pool, ctxs, x) ==> FreeAll(pool, ctxs[c].pages).refs[x] == pool.refs[x]
  {
    var ctxs' := ctxs - {c};
    assert forall y :: y in ctxs[c].pages ==> Counted(pool, ctxs, y);
    FreeAllRefs(pool, ctxs[c].pages, x);
    if x in ctxs[c].pages {
      if x in FreeAll(pool, ctxs[c].pages).refs {
        OtherTracker(ctxs, c, x);
        var d :| d in ctxs && d != c && x in ctxs[d].pages;
        assert d in ctxs' && x in ctxs'[d].pages;
      }
    } else {
      assert forall d :: d in ctxs && d != c ==> d in ctxs';
    }
  }

  /** A released context takes with it exactly the pages only it tracked. */
  lemma ReleasedConserved(pool: Pool, ctxs: map<nat, Context>, c: nat, outside: map<int, nat>)
    requires LedgerInv(pool, ctxs) && c in ctxs && Conserved(pool, ctxs, outside)
    ensures Conserved(FreeAll(pool, ctxs[c].pages), ctxs - {c}, outside)
  {
    forall x
      ensures Foreign(FreeAll(pool, ctxs[c].pages), ctxs - {c}, x) <==> Foreign(pool, ctxs, x)
      ensures Foreign(pool, ctxs, x) ==> FreeAll(pool, ctxs[c].pages).refs[x] == pool.refs[x]
    {
      ReleasedForeign(pool, ctxs, c, x);
    }
  }

  lemma TakeForeign(pool: Pool, ctxs: map<nat, Context>, outside: map<int, nat>, pool': Pool, pa: int)
    requires LedgerInv(pool, ctxs) && Conserved(pool, ctxs, outside)
    requires pool'.Valid() && pa !in pool.refs && pool'.refs == pool.refs[pa := 1]
    ensures LedgerInv(pool', ctxs) && Conserved(pool', ctxs, outside[pa := 1])
  {
    FreshUntracked(pool, ctxs, pa);
    forall c, q | c in ctxs && q in ctxs[c].pages ensures Counted(pool', ctxs, q) {
      assert Counted(pool, ctxs, q);
    }
    forall x ensures Foreign(pool', ctxs, x) <==> Foreign(pool, ctxs, x) || x == pa {
    }
  }

  lemma GiveForeign(pool: Pool, ctxs: map<nat, Context>, outside: map<int, nat>, pa: int)
    requires LedgerInv(pool, ctxs) && Conserved(pool, ctxs, outside) && pa in outside
    ensures LedgerInv(pool.Free(pa), ctxs)
    ensures Conserved(pool.Free(pa), ctxs, if outside[pa] > 1 then outside[pa := outside[pa] - 1] else outside - {pa})
  {
    var pool' := pool.Free(pa);
    assert Foreign(pool, ctxs, pa);
    forall c, q | c in ctxs && q in ctxs[c].pages ensures Counted(pool', ctxs, q) {
      assert Counted(pool, ctxs, q);
    }
    forall x ensures Foreign(pool', ctxs, x) <==> Foreign(pool, ctxs, x) && x in pool'.refs {
    }
  }

  /** When the last context is gone, every page an address space ever took is free again. */
  lemma AllReturned(pool: Pool, ctxs: map<nat, Context>, outside: map<int, nat>)
    requires LedgerInv(pool, ctxs) && Conserved(pool, ctxs, outside) && ctxs == map[]
    ensures pool.refs == outside
    ensures forall pa :: pa in pool.Managed() && pa !in outside ==> pa in pool.free
  {
    forall pa
      ensures pa in pool.refs <==> pa in outside
      ensures pa in pool.refs ==> pool.refs[pa] == outside[pa]
    {
      assert pa in pool.refs <==> Foreign(pool, ctxs, pa);
    }
    assert pool.refs == outside;
  }

  // ---------------------------------------------------------------- steps on the eager machine

  function EagerMapped(eager: Eager, c: nat, path: Path, p: UserPage): Eager
    requires c in eager
  {
    eager[c := eager[c][path := p]]
  }

  /** New bytes, old rights. */
  function EagerStored(eager: Eager, c: nat, path: Path, b: Bytes): Eager
    requires c in eager && path in eager[c]
  {
    EagerMapped(eager, c, path, eager[c][path].(bytes := b))
  }

  /** One page of `src`, now also of `dst`. */
  function EagerShared(eager: Eager, src: nat, dst: nat, path: Path): Eager
    requires src in eager && dst in eager && path in eager[src]
  {
    EagerMapped(EagerMapped(eager, src, path, Shared(eager[src][path])), dst, path, Shared(eager[src][path]))
  }

  function EagerUnmapped(eager: Eager, c: nat, path: Path): Eager
    requires c in eager
  {
    eager[c := eager[c] - {path}]
  }

  /** Same pages, same bytes: the same meaning. */
  lemma MatchesFrame(s: State, s': State, eager: Eager)
    requires Matches(s, eager) && s'.ctxs.Keys == s.ctxs.Keys
    requires forall d, path :: d in s.ctxs && PathOk(path, 4) ==> SamePage(Leaf(s', d, path), Leaf(s, d, path))
    requires forall d, path :: d in s.ctxs && PathOk(path, 4) && Leaf(s, d, path).Full? && Leaf(s, d, path).pa in s.frames ==>
               Leaf(s, d, path).pa in s'.frames && s'.frames[Leaf(s, d, path).pa] == s.frames[Leaf(s, d, path).pa]
    ensures Matches(s', eager)
  {
    forall d, path | d in s'.ctxs && PathOk(path, 4) ensures PageMatches(s', eager, d, path) {
      assert PageMatches(s, eager, d, path);
      assert SamePage(Leaf(s', d, path), Leaf(s, d, path));
    }
  }

  /** One virtual page changes, in both machines. */
  lemma MatchesUpdate(s: State, s': State, eager: Eager, eager': Eager, c: nat, full: Path)
    requires Matches(s, eager) && s'.ctxs.Keys == s.ctxs.Keys == eager'.Keys && c in s.ctxs && PathOk(full, 4)
    requires forall d, path :: d in s.ctxs && PathOk(path, 4) && !(d == c && path == full) ==>
               && SamePage(Leaf(s', d, path), Leaf(s, d, path))
               && (path in eager'[d] <==> path in eager[d])
    requires forall d, path :: d in s.ctxs && path in eager[d] && !(d == c && path == full) ==>
               path in eager'[d] && eager'[d][path] == eager[d][path]
    requires forall d, path :: d in s.ctxs && path in eager'[d] ==> PathOk(path, 4)
    requires forall d, path :: d in s.ctxs && PathOk(path, 4) && !(d == c && path == full) ==>
               Leaf(s, d, path).Full? && Leaf(s, d, path).pa in s.frames ==>
               Leaf(s, d, path).pa in s'.frames && s'.frames[Leaf(s, d, path).pa] == s.frames[Leaf(s, d, path).pa]
    requires PageMatches(s', eager', c, full)
    ensures Matches(s', eager')
  {
    forall d, path | d in s'.ctxs && PathOk(path, 4) ensures PageMatches(s', eager', d, path) {
      if !(d == c && path == full) {
        assert PageMatches(s, eager, d, path);
        assert SamePage(Leaf(s', d, path), Leaf(s, d, path));
      }
    }
  }

  /** A page the context tracks alone, filled and not yet mapped. */
  ghost predicate Pending(s: State, sh: Shape, c: nat, q: int) {
    && c in s.ctxs && q in s.ctxs[c].pages && Exclusive(s.ctxs, c, q) && Unmapped(s, sh, q)
    && q in s.frames && |s.frames[q]| == PAGE_SIZE
  }
}
