/**
 When a clone succeeds.  The clone's ledger never fills before its parent's would, so the
 only thing a clone can run out of is free pages, and it needs one for every table of its
 parent: a count over the whole recursive walk.
 */
module CloneTally {
  import opened Descriptor
  import opened Pool
  import opened AddressSpace
  import opened TableSteps
  import opened ContextSteps
  import opened Coupling
  import opened World
  import opened CloneProgress
  import opened PathOrder
  import opened CloneLeaves
  import opened Wrappers

  /** The tables of a context and where they hang. */
  ghost function TablesOf(sh: Shape, c: nat): map<int, Path> {
    map p | p in sh.place && sh.place[p].ctx == c :: sh.place[p].path
  }

  /** The tables a walk from the root of `c` can pass through. */
  ghost function TablesUnder(s: State, c: nat): set<int>
    requires c in s.ctxs
  {
    set t | t in s.tables && Under(s, c, t)
  }

  ghost predicate Under(s: State, c: nat, t: int)
    requires c in s.ctxs
  {
    exists path: Path :: |path| <= 3 && Descend(s.tables, s.ctxs[c].root, path) == Some(t)
  }

  lemma TablesAre(w: World, sh: Shape, c: nat)
    requires Good(w, sh) && c in w.s.ctxs
    ensures TablesOf(sh, c).Keys == TablesUnder(w.s, c)
    ensures |TablesOf(sh, c)| == |TablesUnder(w.s, c)| && w.s.ctxs[c].root in TablesUnder(w.s, c)
  {
    Unfold(w, sh);
    var root := w.s.ctxs[c].root;
    forall t ensures t in TablesOf(sh, c) <==> t in TablesUnder(w.s, c) {
      if t in TablesOf(sh, c) {
        assert TableAt(w.s, sh, t);
        Reached(w.s, sh, t);
      }
      if t in TablesUnder(w.s, c) {
        var path: Path :| |path| <= 3 && Descend(w.s.tables, root, path) == Some(t);
        DescendPlace(w.s, sh, root, path);
      }
    }
    assert root in TablesOf(sh, c);
    assert |TablesOf(sh, c)| == |TablesOf(sh, c).Keys|;
  }

  /** Memory for the handle, a free ASID, and a free page for each of the parent's tables. */
  ghost predicate CanClone(w: World, src: nat, h: nat)
    requires src in w.s.ctxs && |w.asids| == ASID_MAX + 1
  {
    && h != 0 && (exists a :: 1 <= a <= ASID_MAX && !w.asids[a])
    && |TablesUnder(w.s, src)| <= |w.pool.free|
  }

  // ---------------------------------------------------------------- counting

  ghost predicate Has<K(!new)>(m: map<int, K>, k: K) {
    exists t :: t in m && m[t] == k
  }

  ghost predicate Distinct<K(!new)>(m: map<int, K>) {
    forall t, u :: t in m && u in m && m[t] == m[u] ==> t == u
  }

  /** Every key of `a` on `ks` is one of `b` on `vs`. */
  ghost predicate Covers<K(!new)>(a: map<int, K>, b: map<int, K>, ks: set<int>, vs: set<int>) {
    ks <= a.Keys && vs <= b.Keys && forall t :: t in ks ==> Within(b, vs, a[t])
  }

  ghost predicate Within<K(!new)>(b: map<int, K>, vs: set<int>, k: K) {
    exists u :: u in vs && u in b && b[u] == k
  }

  lemma Pick<T>(s: set<T>) returns (t: T)
    requires s != {}
    ensures t in s
  {
    t :| t in s;
  }

  lemma {:induction false} FitsIn<K(!new)>(a: map<int, K>, b: map<int, K>, ks: set<int>, vs: set<int>)
    requires Distinct(a) && Covers(a, b, ks, vs)
    ensures |ks| <= |vs|
    decreases |ks|
  {
    if ks != {} {
      var t := Pick(ks);
      assert Within(b, vs, a[t]);
      var u :| u in vs && u in b && b[u] == a[t];
      CoversLess(a, b, ks, vs, t, u);
      FitsIn(a, b, ks - {t}, vs - {u});
    }
  }

  lemma CoversLess<K(!new)>(a: map<int, K>, b: map<int, K>, ks: set<int>, vs: set<int>, t: int, u: int)
    requires Distinct(a) && Covers(a, b, ks, vs) && t in ks && u in vs && b[u] == a[t]
    ensures Covers(a, b, ks - {t}, vs - {u})
  {
    forall x | x in ks - {t} ensures Within(b, vs - {u}, a[x]) {
      assert Within(b, vs, a[x]);
      var y :| y in vs && y in b && b[y] == a[x];
      assert y in vs - {u};
    }
  }

  lemma Fits<K(!new)>(a: map<int, K>, b: map<int, K>)
    requires Distinct(a) && forall t :: t in a ==> Has(b, a[t])
    ensures |a| <= |b|
  {
    forall t | t in a ensures Within(b, b.Keys, a[t]) {
      assert Has(b, a[t]);
    }
    FitsIn(a, b, a.Keys, b.Keys);
    assert |a| == |a.Keys| && |b| == |b.Keys|;
  }

  lemma Shrinks<K(!new)>(m: map<int, K>, t: int)
    requires t in m
    ensures |m - {t}| == |m| - 1
  {
    assert (m - {t}).Keys == m.Keys - {t};
    assert |m - {t}| == |(m - {t}).Keys| && |m| == |m.Keys|;
  }

  /** One key of `b` is missed. */
  lemma FitsBut<K(!new)>(a: map<int, K>, b: map<int, K>, u: int)
    requires Distinct(a) && u in b && forall t :: t in a ==> Has(b, a[t]) && a[t] != b[u]
    ensures |a| < |b|
  {
    forall t | t in a ensures Within(b, b.Keys - {u}, a[t]) {
      assert Has(b, a[t]);
    }
    FitsIn(a, b, a.Keys, b.Keys - {u});
    assert |a| == |a.Keys| && |b| == |b.Keys|;
  }

  lemma {:induction false} SeqSize(s: seq<int>)
    requires NoDup(s)
    ensures |set x | x in s| == |s|
    decreases |s|
  {
    if s != [] {
      var n := |s| - 1;
      SeqSize(s[..n]);
      assert s == s[..n] + [s[n]];
      assert (set x | x in s) == (set x | x in s[..n]) + {s[n]};
      assert s[n] !in s[..n];
    } else {
      assert (set x | x in s) == {};
    }
  }

  // ---------------------------------------------------------------- the tally

  /** What a walk begins with: the pages it can take, one of them taken, and the parent's tables, pages and entries. */
  datatype Plan = Plan(budget: nat, tables: map<int, Path>, pages: map<Path, UserPage>, leaves: map<Path, Desc>)

  ghost function PlanOf(w: World, sh: Shape, src: nat, budget: nat): Plan
    requires src in w.s.ctxs && src in w.eager
  {
    Plan(budget, TablesOf(sh, src), w.eager[src], LeavesOf(w.s, src, w.eager[src].Keys))
  }

  /** The page at `full` was marked, or is as it was. */
  ghost predicate MarkedTo(m: map<Path, UserPage>, m': map<Path, UserPage>, full: Path, done: bool) {
    if done then MarkedAt(m, m', full) else SameAt(m, m', full)
  }

  /** The clone has exactly the parent's tables before `at`, and exactly the pages before `at` are marked. */
  ghost predicate Reaches(plan: Plan, ours: map<int, Path>, m: map<Path, UserPage>, at: Path) {
    && (forall u :: u in plan.tables ==> (Has(ours, plan.tables[u]) <==> Precedes(plan.tables[u], at)))
    && (forall full :: PathOk(full, 4) ==> MarkedTo(plan.pages, m, full, Precedes(full, at)))
  }

  /**
   The walk is at entry `i` of the table at `path`.  Free pages and the clone's tables
   together are the plan's budget; the clone has only tables its parent has and tracks only
   user pages its parent tracks.
   */
  ghost predicate TallyRules(plan: Plan, w: World, sh: Shape, src: nat, dst: nat, path: Path, i: nat) {
    && src in w.s.ctxs && dst in w.s.ctxs && src != dst && src in w.eager
    && TablesOf(sh, src) == plan.tables && |w.pool.free| + |TablesOf(sh, dst)| == plan.budget
    && (forall pa :: pa in w.s.ctxs[dst].pages && pa !in sh.place ==> pa in w.s.ctxs[src].pages)
    && (forall t :: t in TablesOf(sh, dst) ==> Has(plan.tables, TablesOf(sh, dst)[t]))
    && Reaches(plan, TablesOf(sh, dst), w.eager[src], path + [i]) && LeavesTo(plan.leaves, w.s, src, dst, path + [i])
  }

  /** `TallyRules`, sealed as `Rules` is. */
  ghost predicate SealedTally(n: nat, plan: Plan, w: World, sh: Shape, src: nat, dst: nat, path: Path, i: nat)
    decreases n
  {
    if n == 0 then TallyRules(plan, w, sh, src, dst, path, i)
    else SealedTally(n - 1, plan, w, sh, src, dst, path, i)
  }

  lemma {:induction false} UnfoldTally(n: nat, plan: Plan, w: World, sh: Shape, src: nat, dst: nat, path: Path, i: nat)
    ensures SealedTally(n, plan, w, sh, src, dst, path, i) <==> TallyRules(plan, w, sh, src, dst, path, i)
  {
    if n > 0 {
      UnfoldTally(n - 1, plan, w, sh, src, dst, path, i);
    }
  }

  ghost predicate Tally(plan: Plan, w: World, sh: Shape, src: nat, dst: nat, path: Path, i: nat) {
    SealedTally(|w.asids|, plan, w, sh, src, dst, path, i)
  }

  /** A new context: one table, one page. */
  lemma OneTable(w: World, sh: Shape, c: nat)
    requires Good(w, sh) && c in w.s.ctxs && w.s.ctxs[c].pages == [w.s.ctxs[c].root]
    ensures TablesOf(sh, c) == map[w.s.ctxs[c].root := []]
  {
    Unfold(w, sh);
    var root := w.s.ctxs[c].root;
    forall t ensures t in TablesOf(sh, c) <==> t == root {
      assert t in sh.place ==> TableAt(w.s, sh, t);
    }
  }

  lemma TallyStart(w: World, sh: Shape, src: nat, dst: nat)
    requires Good(w, sh) && src in w.s.ctxs && dst in w.s.ctxs && src != dst
    requires w.s.ctxs[dst].pages == [w.s.ctxs[dst].root]
    ensures src in w.eager
    ensures Tally(PlanOf(w, sh, src, |w.pool.free| + 1), w, sh, src, dst, [], 0)
  {
    OneTable(w, sh, dst);
    RootTable(w, sh, src);
    RootTable(w, sh, dst);
    StartLeaves(w, sh, src, dst);
    var plan := PlanOf(w, sh, src, |w.pool.free| + 1);
    assert Has(plan.tables, []) by {
      assert w.s.ctxs[src].root in plan.tables;
    }
    StartReaches(plan, w.s.ctxs[dst].root);
    assert [] + [0] == [0];
    TallyStartRules(plan, w, sh, src, dst);
    UnfoldTally(|w.asids|, plan, w, sh, src, dst, [], 0);
  }

  lemma StartReaches(plan: Plan, root: int)
    ensures Reaches(plan, map[root := []], plan.pages, [0])
  {
    var ours: map<int, Path> := map[root := []];
    assert Has(ours, []) by {
      assert root in ours;
    }
    assert [] + [0] == [0];
    forall u | u in plan.tables ensures Has(ours, plan.tables[u]) <==> Precedes(plan.tables[u], [0]) {
      PrecedesEntry(plan.tables[u], [], 0);
    }
    forall full | PathOk(full, 4) ensures !Precedes(full, [0]) {
      PrecedesEntry(full, [], 0);
    }
  }

  lemma TallyStartRules(plan: Plan, w: World, sh: Shape, src: nat, dst: nat)
    requires src in w.s.ctxs && dst in w.s.ctxs && src != dst && src in w.eager
    requires plan == PlanOf(w, sh, src, |w.pool.free| + 1) && Has(plan.tables, []) && LeavesTo(plan.leaves, w.s, src, dst, [] + [0])
    requires w.s.ctxs[dst].pages == [w.s.ctxs[dst].root] && w.s.ctxs[dst].root in sh.place
    requires TablesOf(sh, dst) == map[w.s.ctxs[dst].root := []] && Reaches(plan, TablesOf(sh, dst), w.eager[src], [] + [0])
    ensures TallyRules(plan, w, sh, src, dst, [], 0)
  {
  }

  /** What a clone needs once its context exists. */
  lemma CloneNeeds(w: World, sh: Shape, src: nat, h: nat)
    requires Good(w, sh) && src in w.s.ctxs && h !in w.s.ctxs
    ensures w.pool.free == [] ==> !CanClone(w, src, h)
    ensures w.pool.free != [] && h != 0 && (exists a :: 1 <= a <= ASID_MAX && !w.asids[a]) ==>
      (CanClone(w, src, h) <==> |TablesOf(Rooted(sh, h, w.pool.Alloc().1), src)| <= |w.pool.Alloc().0.free| + 1)
  {
    TablesAre(w, sh, src);
    if w.pool.free != [] {
      var root := w.pool.Alloc().1;
      FreshNotPlaced(w, sh, root);
      assert TablesOf(Rooted(sh, h, root), src) == TablesOf(sh, src);
    }
  }

  /** No table hangs under an invalid entry. */
  lemma NoTableUnder(w: World, sh: Shape, c: nat, t: int, path: Path, i: nat, u: int)
    requires Good(w, sh) && Table(w, sh, c, t, path) && i < ENTRIES && w.s.tables[t][i] == Invalid
    requires u in TablesOf(sh, c)
    ensures !(path + [i] <= sh.place[u].path)
  {
    Unfold(w, sh);
    var p := sh.place[u].path;
    if path + [i] <= p {
      assert p[|path|] == (path + [i])[|path|] == i;
      assert p == path + p[|path|..];
      Reached(w.s, sh, t);
      Reached(w.s, sh, u);
      DescendSplit(w.s.tables, w.s.ctxs[c].root, path, p[|path|..]);
    }
  }

  lemma TallySkip(plan: Plan, w: World, sh: Shape, src: nat, dst: nat, ts: int, path: Path, i: nat)
    requires Good(w, sh) && Tally(plan, w, sh, src, dst, path, i)
    requires Table(w, sh, src, ts, path) && i < ENTRIES && w.s.tables[ts][i] == Invalid
    ensures Tally(plan, w, sh, src, dst, path, i + 1)
  {
    UnfoldTally(|w.asids|, plan, w, sh, src, dst, path, i);
    UnfoldTally(|w.asids|, plan, w, sh, src, dst, path, i + 1);
    forall u | u in plan.tables ensures !(path + [i] <= plan.tables[u]) {
      NoTableUnder(w, sh, src, ts, path, i, u);
    }
    forall full | PathOk(full, 4) && path + [i] <= full ensures full !in w.eager[src] {
      NoneUnder(w, sh, src, ts, path, i, full);
    }
    SkipReaches(plan, TablesOf(sh, dst), w.eager[src], path, i);
    SkipLeaves(plan.leaves, w, sh, src, dst, ts, path, i);
  }

  lemma SkipReaches(plan: Plan, ours: map<int, Path>, m: map<Path, UserPage>, path: Path, i: nat)
    requires Reaches(plan, ours, m, path + [i])
    requires forall u :: u in plan.tables ==> !(path + [i] <= plan.tables[u])
    requires forall full :: PathOk(full, 4) && path + [i] <= full ==> full !in m
    ensures Reaches(plan, ours, m, path + [i + 1])
  {
    forall u | u in plan.tables ensures Precedes(plan.tables[u], path + [i + 1]) <==> Precedes(plan.tables[u], path + [i]) {
      NextEntry(plan.tables[u], path, i);
    }
    forall full | PathOk(full, 4) ensures MarkedTo(plan.pages, m, full, Precedes(full, path + [i + 1])) {
      NextEntry(full, path, i);
      assert MarkedTo(plan.pages, m, full, Precedes(full, path + [i]));
    }
  }

  /** Tables hang at most three levels down, along proper indices. */
  lemma PlacedPath(w: World, sh: Shape, u: int)
    requires Good(w, sh) && u in sh.place
    ensures |sh.place[u].path| <= 3 && PathOk(sh.place[u].path, |sh.place[u].path|)
  {
    Unfold(w, sh);
    assert TableAt(w.s, sh, u);
    Reached(w.s, sh, u);
    DescendIndices(w.s.tables, w.s.ctxs[sh.place[u].ctx].root, sh.place[u].path);
  }

  lemma {:induction false} DescendIndices(t: map<int, seq<Desc>>, p: int, path: Path)
    requires Descend(t, p, path).Some?
    ensures PathOk(path, |path|)
    decreases |path|
  {
    if path != [] {
      DescendIndices(t, t[p][path[0]].pa, path[1..]);
      forall k | 0 <= k < |path| ensures path[k] < ENTRIES {
        assert k > 0 ==> path[k] == path[1..][k - 1];
      }
    }
  }

  lemma TallyShare(plan: Plan, w: World, sh: Shape, src: nat, dst: nat, ts: int, td: int, path: Path, i: nat)
    requires Good(w, sh) && Tally(plan, w, sh, src, dst, path, i)
    requires Sharing(w, sh, src, dst, ts, td, path, i) && w.s.tables[ts][i].pa in w.s.ctxs[src].pages
    requires w.s.tables[ts][i].pa !in w.s.ctxs[dst].pages && |w.s.ctxs[dst].pages| < MAX_TRACKED
    ensures Tally(plan, ClonedPage(w, src, dst, ts, td, path, i),
                  Rehomed(sh, dst, w.s.tables[ts][i].pa, path + [i]), src, dst, path, i + 1)
  {
    var w', sh' := ClonedPage(w, src, dst, ts, td, path, i), Rehomed(sh, dst, w.s.tables[ts][i].pa, path + [i]);
    UnfoldTally(|w.asids|, plan, w, sh, src, dst, path, i);
    forall u | u in plan.tables ensures |plan.tables[u]| <= 3 {
      PlacedPath(w, sh, u);
    }
    ShareReaches(plan, TablesOf(sh, dst), w.eager, src, dst, path, i);
    ShareLeaves(plan.leaves, w, sh, src, dst, ts, td, path, i);
    ShareTally(plan, w, sh, src, dst, ts, td, path, i);
    UnfoldTally(|w'.asids|, plan, w', sh', src, dst, path, i + 1);
  }

  lemma ShareTally(plan: Plan, w: World, sh: Shape, src: nat, dst: nat, ts: int, td: int, path: Path, i: nat)
    requires w.pool.Valid() && TallyRules(plan, w, sh, src, dst, path, i)
    requires Sharing(w, sh, src, dst, ts, td, path, i) && w.s.tables[ts][i].pa in w.s.ctxs[src].pages
    requires Reaches(plan, TablesOf(sh, dst), EagerShared(w.eager, src, dst, path + [i])[src], path + [i + 1])
    requires LeavesTo(plan.leaves, CloneLeaf(w.s, dst, ts, td, i), src, dst, path + [i + 1])
    ensures TallyRules(plan, ClonedPage(w, src, dst, ts, td, path, i),
                       Rehomed(sh, dst, w.s.tables[ts][i].pa, path + [i]), src, dst, path, i + 1)
  {
    var sh' := Rehomed(sh, dst, w.s.tables[ts][i].pa, path + [i]);
    assert TablesOf(sh', src) == TablesOf(sh, src) && TablesOf(sh', dst) == TablesOf(sh, dst);
  }

  lemma ShareReaches(plan: Plan, ours: map<int, Path>, e: Eager, src: nat, dst: nat, path: Path, i: nat)
    requires src in e && dst in e && src != dst && path + [i] in e[src] && |path| == 3
    requires Reaches(plan, ours, e[src], path + [i]) && forall u :: u in plan.tables ==> |plan.tables[u]| <= 3
    ensures Reaches(plan, ours, EagerShared(e, src, dst, path + [i])[src], path + [i + 1])
  {
    var m' := EagerShared(e, src, dst, path + [i])[src];
    forall u | u in plan.tables ensures Precedes(plan.tables[u], path + [i + 1]) <==> Precedes(plan.tables[u], path + [i]) {
      NextEntry(plan.tables[u], path, i);
    }
    forall full | PathOk(full, 4) ensures MarkedTo(plan.pages, m', full, Precedes(full, path + [i + 1])) {
      NextEntry(full, path, i);
      assert MarkedTo(plan.pages, e[src], full, Precedes(full, path + [i]));
      assert path + [i] <= full <==> full == path + [i];
    }
  }

  /** Where the clone's new table goes, in the count. */
  lemma HungTables(w: World, sh: Shape, src: nat, dst: nat, td: int, path: Path, i: nat, q: int)
    requires Table(w, sh, dst, td, path) && src != dst && q !in sh.place
    ensures var sh' := Linked(sh, td, i, q);
      && TablesOf(sh', src) == TablesOf(sh, src) && TablesOf(sh', dst) == TablesOf(sh, dst)[q := path + [i]]
      && |TablesOf(sh', dst)| == |TablesOf(sh, dst)| + 1
  {
    var sh' := Linked(sh, td, i, q);
    assert TablesOf(sh', dst) == TablesOf(sh, dst)[q := path + [i]];
    Shrinks(TablesOf(sh', dst), q);
    assert TablesOf(sh', dst) - {q} == TablesOf(sh, dst);
  }

  lemma TallyHang(plan: Plan, w: World, sh: Shape, src: nat, dst: nat, ts: int, td: int, path: Path, i: nat, attrs: Attrs)
    requires Good(w, sh) && Tally(plan, w, sh, src, dst, path, i) && CanTake(w, dst)
    requires Table(w, sh, src, ts, path) && Table(w, sh, dst, td, path) && |path| < 3 && i < ENTRIES && w.s.tables[ts][i].Full?
    requires w.s.tables[td][i] == Invalid && w.pool.Alloc().1 !in sh.place && w.pool.Alloc().1 != td && attrs == TABLE_ATTRS
    ensures Tally(plan, TableHung(w, dst, td, i, attrs), Linked(sh, td, i, w.pool.Alloc().1), src, dst, path + [i], 0)
  {
    var q := w.pool.Alloc().1;
    var w', sh' := TableHung(w, dst, td, i, attrs), Linked(sh, td, i, q);
    UnfoldTally(|w.asids|, plan, w, sh, src, dst, path, i);
    EntryTable(w, sh, src, ts, path, i);
    assert Has(plan.tables, path + [i]) by {
      assert w.s.tables[ts][i].pa in plan.tables;
    }
    HangReaches(plan, TablesOf(sh, dst), w.eager[src], path, i, q);
    HangLeaves(plan.leaves, w, sh, src, dst, td, path, i, attrs);
    HangTally(plan, w, sh, src, dst, td, path, i, attrs);
    UnfoldTally(|w'.asids|, plan, w', sh', src, dst, path + [i], 0);
  }

  lemma HangTally(plan: Plan, w: World, sh: Shape, src: nat, dst: nat, td: int, path: Path, i: nat, attrs: Attrs)
    requires w.pool.Valid() && TallyRules(plan, w, sh, src, dst, path, i) && CanTake(w, dst)
    requires Table(w, sh, dst, td, path) && i < ENTRIES && Has(plan.tables, path + [i])
    requires w.pool.Alloc().1 !in sh.place && w.pool.Alloc().1 != td
    requires Reaches(plan, TablesOf(sh, dst)[w.pool.Alloc().1 := path + [i]], w.eager[src], path + [i] + [0])
    requires LeavesTo(plan.leaves, TableHung(w, dst, td, i, attrs).s, src, dst, path + [i] + [0])
    ensures TallyRules(plan, TableHung(w, dst, td, i, attrs), Linked(sh, td, i, w.pool.Alloc().1), src, dst, path + [i], 0)
  {
    HungTables(w, sh, src, dst, td, path, i, w.pool.Alloc().1);
  }

  /** A table for entry `i` moves the walk to that table's first entry. */
  lemma HangReaches(plan: Plan, ours: map<int, Path>, m: map<Path, UserPage>, path: Path, i: nat, q: int)
    requires Reaches(plan, ours, m, path + [i]) && q !in ours && |path| < 3
    ensures Reaches(plan, ours[q := path + [i]], m, path + [i] + [0])
  {
    var at, ours' := path + [i], ours[q := path + [i]];
    assert Has(ours', at) by {
      assert q in ours';
    }
    forall u | u in plan.tables ensures Has(ours', plan.tables[u]) <==> Precedes(plan.tables[u], at + [0]) {
      var p := plan.tables[u];
      PrecedesEntry(p, at, 0);
      HasMore(ours, q, at, p);
      NextEntry(p, path, i);
      assert Has(ours, p) <==> Precedes(p, at);
      assert Precedes(p, at + [0]) <==> Precedes(p, at) || p == at;
    }
    forall full | PathOk(full, 4) ensures MarkedTo(plan.pages, m, full, Precedes(full, at + [0])) {
      PrecedesEntry(full, at, 0);
      NextEntry(full, path, i);
      assert MarkedTo(plan.pages, m, full, Precedes(full, at));
    }
  }

  lemma HasMore<K(!new)>(m: map<int, K>, q: int, k: K, x: K)
    requires q !in m
    ensures Has(m[q := k], x) <==> Has(m, x) || x == k
  {
    if Has(m, x) {
      var t :| t in m && m[t] == x;
      assert t in m[q := k] && m[q := k][t] == x;
    }
    assert q in m[q := k];
  }

  /** The subtree under entry `i` is done. */
  lemma TallyJoin(plan: Plan, w: World, sh: Shape, src: nat, dst: nat, path: Path, i: nat)
    requires Good(w, sh) && Tally(plan, w, sh, src, dst, path + [i], ENTRIES)
    ensures Tally(plan, w, sh, src, dst, path, i + 1)
  {
    UnfoldTally(|w.asids|, plan, w, sh, src, dst, path + [i], ENTRIES);
    UnfoldTally(|w.asids|, plan, w, sh, src, dst, path, i + 1);
    forall u | u in plan.tables ensures PathOk(plan.tables[u], |plan.tables[u]|) {
      PlacedPath(w, sh, u);
    }
    JoinReaches(plan, TablesOf(sh, dst), w.eager[src], path, i);
    JoinLeaves(plan.leaves, w.s, src, dst, path, i);
  }

  lemma JoinReaches(plan: Plan, ours: map<int, Path>, m: map<Path, UserPage>, path: Path, i: nat)
    requires Reaches(plan, ours, m, path + [i] + [ENTRIES])
    requires forall u :: u in plan.tables ==> PathOk(plan.tables[u], |plan.tables[u]|)
    ensures Reaches(plan, ours, m, path + [i + 1])
  {
    forall u | u in plan.tables
      ensures Precedes(plan.tables[u], path + [i + 1]) <==> Precedes(plan.tables[u], path + [i] + [ENTRIES])
    {
      LastEntry(plan.tables[u], path, i);
    }
    forall full | PathOk(full, 4) ensures MarkedTo(plan.pages, m, full, Precedes(full, path + [i + 1])) {
      LastEntry(full, path, i);
      assert MarkedTo(plan.pages, m, full, Precedes(full, path + [i] + [ENTRIES]));
    }
  }

  // ---------------------------------------------------------------- what can run out

  /** A table by where it hangs, a user page by itself. */
  datatype Key = TableKey(path: Path) | PageKey(pa: int)

  ghost function KeyOf(sh: Shape, pa: int): Key {
    if pa in sh.place then TableKey(sh.place[pa].path) else PageKey(pa)
  }

  ghost function Keys(sh: Shape, pages: seq<int>): map<int, Key> {
    map pa | pa in pages :: KeyOf(sh, pa)
  }

  lemma KeysSize(sh: Shape, pages: seq<int>)
    requires NoDup(pages)
    ensures |Keys(sh, pages)| == |pages|
  {
    SeqSize(pages);
    assert Keys(sh, pages).Keys == set x | x in pages;
    assert |Keys(sh, pages)| == |Keys(sh, pages).Keys|;
  }

  /** The pages a context tracks have different keys. */
  lemma KeysDistinct(w: World, sh: Shape, c: nat)
    requires Good(w, sh) && c in w.s.ctxs
    ensures Distinct(Keys(sh, w.s.ctxs[c].pages)) && |Keys(sh, w.s.ctxs[c].pages)| == |w.s.ctxs[c].pages|
    ensures |w.s.ctxs[c].pages| <= MAX_TRACKED
    ensures forall pa :: pa in w.s.ctxs[c].pages && pa in sh.place ==> pa in TablesOf(sh, c)
  {
    Unfold(w, sh);
    KeysSize(sh, w.s.ctxs[c].pages);
    var m := Keys(sh, w.s.ctxs[c].pages);
    forall t | t in m && t in sh.place ensures sh.place[t].ctx == c {
      assert TableAt(w.s, sh, t);
    }
    forall t, u | t in m && u in m && m[t] == m[u] ensures t == u {
      if t in sh.place {
        Unique(w.s, sh, t, u);
      }
    }
  }

  /** What a table of `c` is worth in its ledger. */
  lemma TableTracked(w: World, sh: Shape, c: nat, u: int)
    requires Good(w, sh) && c in w.s.ctxs && u in TablesOf(sh, c)
    ensures u in w.s.ctxs[c].pages
  {
    Unfold(w, sh);
    assert TableAt(w.s, sh, u);
  }

  /** While the parent has an entry the clone lacks, the clone tracks fewer pages: its ledger is not full. */
  lemma LedgerRoom(plan: Plan, w: World, sh: Shape, src: nat, dst: nat, ts: int, td: int, path: Path, i: nat)
    requires Good(w, sh) && Tally(plan, w, sh, src, dst, path, i)
    requires Table(w, sh, src, ts, path) && Table(w, sh, dst, td, path) && |path| <= 3 && i < ENTRIES
    requires w.s.tables[ts][i].Full? && w.s.tables[td][i] == Invalid
    requires w.s.tables[ts][i].pa in w.s.ctxs[src].pages
    requires |path| == 3 ==> w.s.tables[ts][i].pa !in sh.place && w.s.tables[ts][i].pa !in w.s.ctxs[dst].pages
    ensures |w.s.ctxs[dst].pages| < |w.s.ctxs[src].pages| <= MAX_TRACKED
  {
    UnfoldTally(|w.asids|, plan, w, sh, src, dst, path, i);
    KeysDistinct(w, sh, src);
    KeysDistinct(w, sh, dst);
    var ours, theirs := Keys(sh, w.s.ctxs[dst].pages), Keys(sh, w.s.ctxs[src].pages);
    var q := w.s.tables[ts][i].pa;
    EntryTable(w, sh, src, ts, path, i);
    forall t | t in ours ensures Has(theirs, ours[t]) && ours[t] != theirs[q] {
      if t in sh.place {
        assert t in TablesOf(sh, dst);
        var u :| u in plan.tables && plan.tables[u] == sh.place[t].path;
        TableTracked(w, sh, src, u);
        assert u in theirs && theirs[u] == ours[t];
        NoTableUnder(w, sh, dst, td, path, i, t);
      } else {
        assert t in theirs && theirs[t] == ours[t];
      }
    }
    FitsBut(ours, theirs, q);
  }

  /** ... and, above level 3, fewer tables. */
  lemma Short(plan: Plan, w: World, sh: Shape, src: nat, dst: nat, ts: int, td: int, path: Path, i: nat)
    requires Good(w, sh) && Tally(plan, w, sh, src, dst, path, i) && w.pool.free == []
    requires Table(w, sh, src, ts, path) && Table(w, sh, dst, td, path) && |path| < 3 && i < ENTRIES
    requires w.s.tables[ts][i].Full? && w.s.tables[td][i] == Invalid
    ensures plan.budget < |plan.tables|
  {
    UnfoldTally(|w.asids|, plan, w, sh, src, dst, path, i);
    EntryTable(w, sh, src, ts, path, i);
    var ours, q := TablesOf(sh, dst), w.s.tables[ts][i].pa;
    TablesDistinct(w, sh, dst);
    forall t | t in ours ensures ours[t] != plan.tables[q] {
      NoTableUnder(w, sh, dst, td, path, i, t);
    }
    FitsBut(ours, plan.tables, q);
  }

  lemma TablesDistinct(w: World, sh: Shape, c: nat)
    requires Good(w, sh)
    ensures Distinct(TablesOf(sh, c))
  {
    Unfold(w, sh);
    forall t, u | t in TablesOf(sh, c) && u in TablesOf(sh, c) && TablesOf(sh, c)[t] == TablesOf(sh, c)[u] ensures t == u {
      Unique(w.s, sh, t, u);
    }
  }

  // ---------------------------------------------------------------- where a walk halts

  ghost function TablesTo(plan: Plan, stop: Path): set<int> {
    set u | u in plan.tables && Precedes(plan.tables[u], stop)
  }

  /** The budget paid for the tables before `stop`, one of the parent's, and the pages before it are marked. */
  ghost predicate HaltedAt(plan: Plan, m: map<Path, UserPage>, stop: Path) {
    && stop != [] && Has(plan.tables, stop) && |TablesTo(plan, stop)| == plan.budget
    && forall full :: PathOk(full, 4) ==> MarkedTo(plan.pages, m, full, Precedes(full, stop))
  }

  ghost predicate Halted(plan: Plan, e: Eager, src: nat) {
    src in e && exists stop :: HaltedAt(plan, e[src], stop)
  }

  /** Without a free page the walk halts at the table it cannot copy. */
  lemma HaltsHere(plan: Plan, w: World, sh: Shape, src: nat, dst: nat, ts: int, path: Path, i: nat)
    requires Good(w, sh) && Tally(plan, w, sh, src, dst, path, i) && w.pool.free == []
    requires Table(w, sh, src, ts, path) && |path| < 3 && i < ENTRIES && w.s.tables[ts][i].Full?
    ensures Halted(plan, w.eager, src)
  {
    UnfoldTally(|w.asids|, plan, w, sh, src, dst, path, i);
    EntryTable(w, sh, src, ts, path, i);
    assert Has(plan.tables, path + [i]) by {
      assert w.s.tables[ts][i].pa in plan.tables;
    }
    TablesDistinct(w, sh, src);
    TablesDistinct(w, sh, dst);
    HaltCount(plan, TablesOf(sh, dst), w.eager[src], path + [i]);
    assert HaltedAt(plan, w.eager[src], path + [i]);
  }

  lemma HaltCount(plan: Plan, ours: map<int, Path>, m: map<Path, UserPage>, stop: Path)
    requires Distinct(plan.tables) && Distinct(ours) && Reaches(plan, ours, m, stop)
    requires forall t :: t in ours ==> Has(plan.tables, ours[t])
    ensures |TablesTo(plan, stop)| == |ours|
  {
    var theirs := map u | u in plan.tables && Precedes(plan.tables[u], stop) :: plan.tables[u];
    forall t | t in ours ensures Has(theirs, ours[t]) {
      var u :| u in plan.tables && plan.tables[u] == ours[t];
      assert Has(ours, plan.tables[u]);
      assert u in theirs;
    }
    Fits(ours, theirs);
    Fits(theirs, ours);
    assert theirs.Keys == TablesTo(plan, stop) && |theirs| == |theirs.Keys|;
  }

  /** The tables a walk passes before it is at `stop`. */
  ghost function TablesBefore(s: State, c: nat, stop: Path): set<int>
    requires c in s.ctxs
  {
    set t | t in s.tables && UnderBefore(s, c, t, stop)
  }

  ghost predicate UnderBefore(s: State, c: nat, t: int, stop: Path)
    requires c in s.ctxs
  {
    exists path: Path :: |path| <= 3 && Descend(s.tables, s.ctxs[c].root, path) == Some(t) && Precedes(path, stop)
  }

  /** A clone of `src` halts at its table `stop`: there is a free page for each table before it, and no more. */
  ghost predicate StopsAt(w: World, src: nat, stop: Path)
    requires src in w.s.ctxs
  {
    && 1 <= |stop| <= 3 && Descend(w.s.tables, w.s.ctxs[src].root, stop).Some?
    && |TablesBefore(w.s, src, stop)| == |w.pool.free|
  }

  /** The walk begins: there is memory for the handle, a page for the root and an ASID. */
  ghost predicate Begins(w: World, h: nat)
    requires |w.asids| == ASID_MAX + 1
  {
    h != 0 && w.pool.free != [] && exists a :: 1 <= a <= ASID_MAX && !w.asids[a]
  }

  /** The pages a refused clone leaves marked: those before the table it halted at. */
  ghost function RefusedMarks(w: World, src: nat, h: nat): set<Path>
    requires src in w.s.ctxs && src in w.eager && |w.asids| == ASID_MAX + 1
  {
    set full | full in w.eager[src] && Begins(w, h) && MarkedByStop(w, src, full)
  }

  ghost predicate MarkedByStop(w: World, src: nat, full: Path)
    requires src in w.s.ctxs
  {
    exists stop :: StopsAt(w, src, stop) && Precedes(full, stop)
  }

  ghost function SharedOn(m: map<Path, UserPage>, marked: set<Path>): map<Path, UserPage> {
    map p | p in m :: if p in marked then Shared(m[p]) else m[p]
  }

  /** A table is found along the path it hangs at ... */
  lemma TableFound(w: World, sh: Shape, c: nat, t: int)
    requires Good(w, sh) && c in w.s.ctxs && t in TablesOf(sh, c)
    ensures |TablesOf(sh, c)[t]| <= 3 && t in w.s.tables && Descend(w.s.tables, w.s.ctxs[c].root, TablesOf(sh, c)[t]) == Some(t)
  {
    Unfold(w, sh);
    assert TableAt(w.s, sh, t);
    Reached(w.s, sh, t);
  }

  /** ... and along no other. */
  lemma FoundTable(w: World, sh: Shape, c: nat, path: Path)
    requires Good(w, sh) && c in w.s.ctxs && |path| <= 3 && Descend(w.s.tables, w.s.ctxs[c].root, path).Some?
    ensures var t := Descend(w.s.tables, w.s.ctxs[c].root, path).value; t in TablesOf(sh, c) && TablesOf(sh, c)[t] == path
  {
    Unfold(w, sh);
    DescendPlace(w.s, sh, w.s.ctxs[c].root, path);
  }

  lemma TablesBeforeAre(w: World, sh: Shape, c: nat, plan: Plan, stop: Path)
    requires Good(w, sh) && c in w.s.ctxs && plan.tables == TablesOf(sh, c)
    ensures TablesTo(plan, stop) == TablesBefore(w.s, c, stop)
  {
    var root := w.s.ctxs[c].root;
    forall t | t in TablesTo(plan, stop) ensures t in TablesBefore(w.s, c, stop) {
      TableFound(w, sh, c, t);
    }
    forall t | t in TablesBefore(w.s, c, stop) ensures t in TablesTo(plan, stop) {
      var path: Path :| |path| <= 3 && Descend(w.s.tables, root, path) == Some(t) && Precedes(path, stop);
      FoundTable(w, sh, c, path);
    }
  }

  /** At most one table can be the one a clone halts at. */
  lemma OneStop(w: World, sh: Shape, src: nat, p: Path, q: Path)
    requires Good(w, sh) && src in w.s.ctxs && StopsAt(w, src, p) && StopsAt(w, src, q)
    ensures p == q
  {
    Total(p, q);
    if Precedes(p, q) {
      FewerBefore(w, sh, src, p, q);
    } else if Precedes(q, p) {
      FewerBefore(w, sh, src, q, p);
    }
  }

  lemma FewerBefore(w: World, sh: Shape, src: nat, p: Path, q: Path)
    requires Good(w, sh) && src in w.s.ctxs && Precedes(p, q) && |p| <= 3
    requires Descend(w.s.tables, w.s.ctxs[src].root, p).Some?
    ensures |TablesBefore(w.s, src, p)| < |TablesBefore(w.s, src, q)|
  {
    var plan := Plan(0, TablesOf(sh, src), map[], map[]);
    FoundTable(w, sh, src, p);
    TablesBeforeAre(w, sh, src, plan, p);
    TablesBeforeAre(w, sh, src, plan, q);
    FewerTo(plan, Descend(w.s.tables, w.s.ctxs[src].root, p).value, q);
  }

  lemma FewerTo(plan: Plan, t: int, q: Path)
    requires t in plan.tables && Precedes(plan.tables[t], q)
    ensures |TablesTo(plan, plan.tables[t])| < |TablesTo(plan, q)|
  {
    forall u | u in TablesTo(plan, plan.tables[t]) ensures u in TablesTo(plan, q) {
      Transitive(plan.tables[u], plan.tables[t], q);
    }
    Irreflexive(plan.tables[t]);
    Fewer(TablesTo(plan, plan.tables[t]), TablesTo(plan, q), t);
  }

  lemma Fewer(a: set<int>, b: set<int>, t: int)
    requires a <= b && t in b && t !in a
    ensures |a| < |b|
  {
    Subset(a, b - {t});
  }

  lemma {:induction false} Subset<T>(a: set<T>, b: set<T>)
    requires a <= b
    ensures |a| <= |b|
    decreases |a|
  {
    if a != {} {
      var t := Pick(a);
      Subset(a - {t}, b - {t});
    }
  }

  /** What a halted walk left is what the state before it says. */
  lemma HaltMeans(w: World, sh: Shape, src: nat, h: nat, plan: Plan, m: map<Path, UserPage>)
    requires Good(w, sh) && src in w.s.ctxs && src in w.eager && |w.asids| == ASID_MAX + 1 && Begins(w, h)
    requires plan == PlanOf(w, sh, src, |w.pool.free|) && exists stop :: HaltedAt(plan, m, stop)
    requires m.Keys == w.eager[src].Keys
    ensures m == SharedOn(w.eager[src], RefusedMarks(w, src, h))
  {
    var stop :| HaltedAt(plan, m, stop);
    StopHere(w, sh, src, plan, m, stop);
    Unfold(w, sh);
    forall full | full in m ensures full in w.eager[src] && m[full] == SharedOn(w.eager[src], RefusedMarks(w, src, h))[full] {
      assert PathOk(full, 4) && MarkedTo(plan.pages, m, full, Precedes(full, stop));
      if MarkedByStop(w, src, full) {
        var other :| StopsAt(w, src, other) && Precedes(full, other);
        OneStop(w, sh, src, stop, other);
      }
    }
  }

  lemma StopHere(w: World, sh: Shape, src: nat, plan: Plan, m: map<Path, UserPage>, stop: Path)
    requires Good(w, sh) && src in w.s.ctxs && HaltedAt(plan, m, stop)
    requires plan.budget == |w.pool.free| && plan.tables == TablesOf(sh, src)
    ensures StopsAt(w, src, stop)
  {
    TablesBeforeAre(w, sh, src, plan, stop);
    var t :| t in plan.tables && plan.tables[t] == stop;
    TableFound(w, sh, src, t);
  }

  /** A clone refused before the walk marks nothing. */
  lemma NothingMarked(w: World, src: nat, h: nat)
    requires src in w.s.ctxs && src in w.eager && |w.asids| == ASID_MAX + 1 && !Begins(w, h)
    ensures w.eager[src := SharedOn(w.eager[src], RefusedMarks(w, src, h))] == w.eager
  {
    assert RefusedMarks(w, src, h) == {};
    assert SharedOn(w.eager[src], {}) == w.eager[src];
  }

  /** The new context's root is not among its parent's tables. */
  lemma SameTables(w: World, sh: Shape, src: nat, h: nat)
    requires Good(w, sh) && src in w.s.ctxs && h !in w.s.ctxs && w.pool.free != []
    ensures TablesOf(Rooted(sh, h, w.pool.Alloc().1), src) == TablesOf(sh, src)
    ensures |TablesOf(sh, src)| == |TablesUnder(w.s, src)| && |w.pool.Alloc().0.free| == |w.pool.free| - 1
  {
    TablesAre(w, sh, src);
    FreshNotPlaced(w, sh, w.pool.Alloc().1);
    assert w.pool.Alloc().0 == Pool(w.pool.free[1..], w.pool.refs[w.pool.free[0] := 1]);
  }

  /** The new context changes nothing of what its parent's walk begins with. */
  lemma SamePlan(w: World, sh: Shape, w': World, src: nat, h: nat, asid: nat)
    requires Good(w, sh) && src in w.s.ctxs && h !in w.s.ctxs && w.pool.free != []
    requires w'.s == Created(w.s, h, asid, w.pool.Alloc().1) && w'.eager == w.eager[h := map[]]
    ensures src in w.eager && PlanOf(w', Rooted(sh, h, w.pool.Alloc().1), src, |w.pool.free|) == PlanOf(w, sh, src, |w.pool.free|)
    ensures |TablesOf(sh, src)| == |TablesUnder(w.s, src)| && |w.pool.Alloc().0.free| == |w.pool.free| - 1
  {
    SameTables(w, sh, src, h);
    SameLeaves(w, sh, src, h, asid);
  }

  lemma SameLeaves(w: World, sh: Shape, src: nat, h: nat, asid: nat)
    requires Good(w, sh) && src in w.s.ctxs && h !in w.s.ctxs && w.pool.free != []
    ensures src in w.eager
    ensures LeavesOf(Created(w.s, h, asid, w.pool.Alloc().1), src, w.eager[src].Keys) == LeavesOf(w.s, src, w.eager[src].Keys)
  {
    Unfold(w, sh);
    var root := w.pool.Alloc().1;
    FreshUntracked(w.pool, w.s.ctxs, root);
    UntrackedIsUnmapped(w.s, sh, root);
    forall full | PathOk(full, 4) ensures Leaf(Created(w.s, h, asid, root), src, full) == Leaf(w.s, src, full) {
      CreatedLeaf(w.s, sh, h, asid, root, src, full);
    }
  }

  /** A whole walk made a table for each of the parent's. */
  lemma TallyDone(plan: Plan, w: World, sh: Shape, src: nat, dst: nat)
    requires Good(w, sh) && Tally(plan, w, sh, src, dst, [], ENTRIES)
    ensures |plan.tables| + |w.pool.free| == plan.budget
    ensures src in w.s.ctxs && dst in w.s.ctxs && AllCow(plan.leaves, w.s, src, dst)
  {
    UnfoldTally(|w.asids|, plan, w, sh, src, dst, [], ENTRIES);
    TablesDistinct(w, sh, src);
    var ours := TablesOf(sh, dst);
    assert [] + [ENTRIES] == [ENTRIES];
    forall u | u in plan.tables ensures Has(ours, plan.tables[u]) {
      PlacedPath(w, sh, u);
      PrecedesEntry(plan.tables[u], [], ENTRIES);
    }
    TablesDistinct(w, sh, dst);
    Fits(plan.tables, ours);
    Fits(ours, plan.tables);
    DoneLeaves(plan.leaves, w.s, src, dst);
  }

  // ---------------------------------------------------------------- along the walk

  lemma SkipStep(plan: Plan, w0: World, sh0: Shape, w: World, sh: Shape,
                 src: nat, dst: nat, ts: int, td: int, path: Path, i: nat)
    requires Good(w, sh) && Progress(w0, sh0, w, sh, src, dst, ts, td, path, i) && i < ENTRIES
    requires Tally(plan, w, sh, src, dst, path, i) && w.s.tables[ts][i] == Invalid
    ensures Tally(plan, w, sh, src, dst, path, i + 1)
  {
    AtEntry(w0, sh0, w, sh, src, dst, ts, td, path, i);
    TallySkip(plan, w, sh, src, dst, ts, path, i);
  }

  lemma LeafStep(plan: Plan, w0: World, sh0: Shape, w: World, sh: Shape,
                 src: nat, dst: nat, ts: int, td: int, path: Path, i: nat)
    requires Good(w, sh) && Progress(w0, sh0, w, sh, src, dst, ts, td, path, i) && |path| == 3 && i < ENTRIES
    requires Tally(plan, w, sh, src, dst, path, i) && w.s.tables[ts][i].Full?
    ensures |w.s.ctxs[dst].pages| < MAX_TRACKED && path + [i] in w.eager[src]
    ensures Tally(plan, ClonedPage(w, src, dst, ts, td, path, i),
                  Rehomed(sh, dst, w.s.tables[ts][i].pa, path + [i]), src, dst, path, i + 1)
  {
    AtEntry(w0, sh0, w, sh, src, dst, ts, td, path, i);
    NotYetShared(w, sh, src, dst, ts, td, path, i);
    TableLeaf(w, sh, src, ts, path, i);
    LeafPage(w, sh, src, path + [i]);
    LedgerRoom(plan, w, sh, src, dst, ts, td, path, i);
    TallyShare(plan, w, sh, src, dst, ts, td, path, i);
  }

  /** A table entry: without a free page the clone cannot succeed, with one the subtree may begin. */
  lemma TableStep(plan: Plan, w0: World, sh0: Shape, w: World, sh: Shape,
                  src: nat, dst: nat, ts: int, td: int, path: Path, i: nat)
    requires Good(w, sh) && Progress(w0, sh0, w, sh, src, dst, ts, td, path, i) && |path| < 3 && i < ENTRIES
    requires Tally(plan, w, sh, src, dst, path, i) && w.s.tables[ts][i].Full?
    ensures !CanTake(w, dst) ==> Stopped(w0, sh0, w, sh, src, dst, path) && plan.budget < |plan.tables| && Halted(plan, w.eager, src)
    ensures CanTake(w, dst) ==> w.pool.Alloc().1 !in sh.place && w.pool.Alloc().1 != td
    ensures CanTake(w, dst) ==>
      var q := w.pool.Alloc().1;
      var w', sh' := TableHung(w, dst, td, i, w.s.tables[ts][i].attrs), Linked(sh, td, i, q);
      && Good(w', sh') && Progress(w', sh', w', sh', src, dst, w.s.tables[ts][i].pa, q, path + [i], 0)
      && Tally(plan, w', sh', src, dst, path + [i], 0)
  {
    AtEntry(w0, sh0, w, sh, src, dst, ts, td, path, i);
    EntryTable(w, sh, src, ts, path, i);
    TableTracked(w, sh, src, w.s.tables[ts][i].pa);
    LedgerRoom(plan, w, sh, src, dst, ts, td, path, i);
    if w.pool.free == [] {
      Short(plan, w, sh, src, dst, ts, td, path, i);
      HaltsHere(plan, w, sh, src, dst, ts, path, i);
    } else {
      HangTable(w0, sh0, w, sh, src, dst, ts, td, path, i);
      TallyHang(plan, w, sh, src, dst, ts, td, path, i, w.s.tables[ts][i].attrs);
    }
  }

  /** The subtree is done: so is the entry, in the walk and in the count. */
  lemma JoinStep(plan: Plan, w0: World, sh0: Shape, w: World, sh: Shape, w2: World, sh2: Shape,
                 src: nat, dst: nat, ts: int, td: int, path: Path, i: nat, ns: int)
    requires Progress(w0, sh0, w, sh, src, dst, ts, td, path, i) && |path| < 3 && i < ENTRIES
    requires w.pool.Valid() && CanTake(w, dst) && w.s.tables[ts][i].Full? && w.pool.Alloc().1 !in sh.place && w.pool.Alloc().1 != td
    requires Good(w2, sh2)
    requires Progress(TableHung(w, dst, td, i, w.s.tables[ts][i].attrs), Linked(sh, td, i, w.pool.Alloc().1), w2, sh2,
                      src, dst, ns, w.pool.Alloc().1, path + [i], ENTRIES)
    requires Tally(plan, w, sh, src, dst, path, i) && Tally(plan, w2, sh2, src, dst, path + [i], ENTRIES)
    ensures Progress(w0, sh0, w2, sh2, src, dst, ts, td, path, i + 1)
    ensures Tally(plan, w2, sh2, src, dst, path, i + 1)
  {
    var q := w.pool.Alloc().1;
    ProgressJoin(w0, sh0, w, sh, w2, sh2, src, dst, ts, td, path, i, ns);
    UnfoldProgress(|w2.asids|, TableHung(w, dst, td, i, w.s.tables[ts][i].attrs), Linked(sh, td, i, q), w2, sh2,
                   src, dst, ns, q, path + [i], ENTRIES);
    TallyJoin(plan, w2, sh2, src, dst, path, i);
  }
}
