/**
 Whole runs: any sequence of locked regions, by any processors, on any number of address
 spaces.  The eager machine copies every page at fork and knows nothing of page tables,
 reference counts or copy-on-write; it knows the bytes of every page and what a user may do
 with it.  Each answer of the code is given exactly, and each leaves the memory the eager
 machine has.
 */
module Runs {
  import opened Descriptor
  import opened Pool
  import opened AddressSpace
  import opened TableSteps
  import opened Coupling
  import opened World
  import opened CloneProgress
  import opened CloneLeaves
  import opened CloneTally
  import opened Region
  import opened Mmu
  import opened Wrappers

  /** One locked region.  `h` is the handle a new context would get. */
  datatype Event =
    | Create(h: nat)
    | Clone(src: nat, h: nat)
    | Release(c: nat)
    | Fault(c: nat, regions: seq<Region>, brk: nat, far: nat, esr: nat)
    | Copy(c: nat, va: nat, buf: Bytes, write: bool)
    | Unmap(c: nat, va: nat)
    | UnmapRange(c: nat, start: Word, len: Word)
    | OthersAlloc
    | OthersFree(pa: int)

  datatype Answer = Answer(ok: bool, out: Bytes)

  // ---------------------------------------------------------------- the eager machine

  ghost predicate Mapped(e: Eager, c: nat, va: nat) {
    c in e && PathOf(va) in e[c] && |e[c][PathOf(va)].bytes| == PAGE_SIZE
  }

  /**
   The eager machine's step; `ok` says whether the request was granted, and `marked` which
   pages a fork leaves writable where it is refused.
   */
  ghost function EagerStep(e: Eager, ev: Event, ok: bool, marked: set<Path>): Eager {
    match ev
    case Create(h) => if ok then e[h := map[]] else e
    case Clone(src, h) =>
      if src !in e then e
      else if ok then e[src := AllShared(e[src])][h := AllShared(e[src])]
      else e[src := SharedOn(e[src], marked)]
    case Release(c) => e - {c}
    case Fault(c, regions, brk, far, esr) =>
      if ok && c in e && TranslationStatus(esr) then FaultedIn(e, c, regions, brk, far) else e
    case Copy(c, va, buf, write) => if ok && write && Mapped(e, c, va) then Stored(e, c, va, buf) else e
    case Unmap(c, va) => if c in e then EagerUnmapped(e, c, PathOf(va)) else e
    case UnmapRange(c, va, len) => if c in e then RangeUnmapped(e, c, va, len) else e
    case OthersAlloc => e
    case OthersFree(_) => e
  }

  /** The user may read the page, or write to it. */
  ghost predicate Permits(e: Eager, c: nat, va: nat, write: bool) {
    Mapped(e, c, va) && e[c][PathOf(va)].rights.el0 && (write ==> e[c][PathOf(va)].rights.write)
  }

  // ---------------------------------------------------------------- exact answers

  ghost predicate Fit(w: World) {
    w.eager.Keys == w.s.ctxs.Keys && |w.asids| == ASID_MAX + 1
  }

  /** A write to the page has to wait for a copy-on-write fault. */
  ghost predicate CowDue(w: World, c: nat, full: Path)
    requires c in w.s.ctxs && PathOk(full, 4)
  {
    Leaf(w.s, c, full).Full? && Leaf(w.s, c, full).attrs.ro && Leaf(w.s, c, full).attrs.cow
  }

  ghost predicate CanCreate(w: World, h: nat)
    requires Fit(w)
  {
    h != 0 && w.pool.free != [] && exists a :: 1 <= a <= ASID_MAX && !w.asids[a]
  }

  /** Exactly when a request is granted, and what a read returns. */
  ghost predicate Answered(w: World, ev: Event, a: Answer)
    requires Fit(w)
  {
    match ev
    case Create(h) => a.ok <==> h !in w.s.ctxs && CanCreate(w, h)
    case Clone(src, h) => a.ok <==> src in w.s.ctxs && h !in w.s.ctxs && CanClone(w, src, h)
    case Release(c) => a.ok <==> c in w.s.ctxs
    case Fault(c, regions, brk, far, esr) =>
      a.ok <==> c in w.s.ctxs && FaultGranted(w, c, regions, brk, far, esr)
    case Copy(c, va, buf, write) =>
      && (a.ok <==> Permits(w.eager, c, va, write) && (write ==> !CowDue(w, c, PathOf(va))))
      && (a.ok && !write ==> a.out == Loaded(w.eager, c, va, buf))
    case Unmap(c, va) => a.ok <==> c in w.eager && PathOf(va) in w.eager[c]
    case UnmapRange(c, _, _) => a.ok <==> c in w.s.ctxs
    case OthersAlloc => a.ok <==> w.pool.free != []
    case OthersFree(pa) => a.ok <==> pa in w.outside
  }

  ghost predicate FaultGranted(w: World, c: nat, regions: seq<Region>, brk: nat, far: nat, esr: nat)
    requires Fit(w) && c in w.s.ctxs
  {
    if TranslationStatus(esr) then FaultReady(w, c, regions, brk, far)
    else PermissionStatus(esr) && CowReady(w, c, PathOf(far))
  }

  /** The pages a request would leave writable if it were refused. */
  ghost function Marks(w: World, ev: Event): set<Path>
    requires Fit(w)
  {
    if ev.Clone? && ev.src in w.s.ctxs && ev.h !in w.s.ctxs then RefusedMarks(w, ev.src, ev.h) else {}
  }

  /** One region: the right answer, and the eager machine's memory. */
  ghost predicate Stepped(w: World, ev: Event, a: Answer, w': World) {
    Fit(w) && Answered(w, ev, a) && w'.eager == EagerStep(w.eager, ev, a.ok, Marks(w, ev))
  }

  ghost predicate IsTrace(ws: seq<World>, evs: seq<Event>, answers: seq<Answer>) {
    && |ws| == |evs| + 1 && |answers| == |evs|
    && forall i :: 0 <= i < |evs| ==> Stepped(ws[i], evs[i], answers[i], ws[i + 1])
  }

  // ---------------------------------------------------------------- the code

  lemma NoMarks(e: Eager, src: nat)
    ensures src in e ==> e[src := SharedOn(e[src], {})] == e
  {
    if src in e {
      assert SharedOn(e[src], {}) == e[src];
    }
  }

  method Fork(m: Mmu, src: nat, h: nat) returns (a: Answer)
    requires m.Valid()
    modifies m
    ensures m.Valid() && m.all == old(m.all) && Stepped(old(m.W()), Clone(src, h), a, m.W())
  {
    NoMarks(m.eager, src);
    if src !in m.ctxs || h in m.ctxs {
      return Answer(false, []);
    }
    var ok := m.ContextClone(src, h);
    a := Answer(ok, []);
  }

  method Contexts(m: Mmu, ev: Event) returns (a: Answer)
    requires m.Valid() && (ev.Create? || ev.Release?)
    modifies m
    ensures m.Valid() && m.all == old(m.all) && Stepped(old(m.W()), ev, a, m.W())
  {
    var ok := false;
    match ev {
      case Create(h) =>
        if h !in m.ctxs {
          ok := m.ContextCreate(h);
        }
      case Release(c) =>
        if c in m.ctxs {
          m.ContextRelease(c);
          ok := true;
        } else {
          assert m.eager - {c} == m.eager;
        }
    }
    a := Answer(ok, []);
  }

  method Memory(m: Mmu, ev: Event) returns (a: Answer)
    requires m.Valid() && (ev.Fault? || ev.Unmap? || ev.UnmapRange?) && ev.c in m.ctxs
    modifies m
    ensures m.Valid() && m.all == old(m.all) && Stepped(old(m.W()), ev, a, m.W())
  {
    var ok;
    match ev {
      case Fault(c, regions, brk, far, esr) =>
        ok := m.HandleFault(c, regions, brk, far, esr);
      case Unmap(c, va) =>
        ok := m.UnmapUserPage(c, PathOf(va));
      case UnmapRange(c, va, len) =>
        m.UnmapRange(c, va, len);
        ok := true;
    }
    a := Answer(ok, []);
  }

  /** Rights are what the entry's bits say, once copy-on-write is seen through. */
  lemma PermitsMeans(w: World, sh: Shape, c: nat, va: nat, write: bool)
    requires Good(w, sh) && c in w.s.ctxs
    ensures Permits(w.eager, c, va, write) && (write ==> !CowDue(w, c, PathOf(va))) <==>
      PathOf(va) in w.eager[c] && Allowed(Leaf(w.s, c, PathOf(va)), write)
  {
    LeafPage(w, sh, c, PathOf(va));
  }

  method Access(m: Mmu, ev: Event) returns (a: Answer)
    requires m.Valid() && ev.Copy? && ev.c in m.ctxs
    modifies m
    ensures m.Valid() && m.all == old(m.all) && Stepped(old(m.W()), ev, a, m.W())
  {
    PermitsMeans(m.W(), m.shape, ev.c, ev.va, ev.write);
    var r, out := m.CopyChunk(ev.c, ev.va, ev.buf, ev.write);
    a := Answer(r.Done?, out);
  }

  method Others(m: Mmu, ev: Event) returns (a: Answer)
    requires m.Valid() && (ev.OthersAlloc? || ev.OthersFree?)
    modifies m
    ensures m.Valid() && m.all == old(m.all) && Stepped(old(m.W()), ev, a, m.W())
  {
    var ok := false;
    match ev {
      case OthersAlloc =>
        var pa := m.OthersAlloc();
        ok := pa != 0;
      case OthersFree(pa) =>
        if pa in m.outside {
          m.OthersFree(pa);
          ok := true;
        }
    }
    a := Answer(ok, []);
  }

  /** One region: a request for a context that does not exist is refused. */
  method Step(m: Mmu, ev: Event) returns (a: Answer)
    requires m.Valid()
    modifies m
    ensures m.Valid() && m.all == old(m.all) && Stepped(old(m.W()), ev, a, m.W())
  {
    if ev.Clone? {
      a := Fork(m, ev.src, ev.h);
    } else if ev.Create? || ev.Release? {
      a := Contexts(m, ev);
    } else if ev.OthersAlloc? || ev.OthersFree? {
      a := Others(m, ev);
    } else if ev.c !in m.ctxs {
      a := Answer(false, []);
    } else if ev.Copy? {
      a := Access(m, ev);
    } else {
      a := Memory(m, ev);
    }
  }

  /**
   Copy-on-write fork refines eager copy.  Over any run of creations, forks (granted or
   refused part way), releases, faults, reads, writes and unmappings by any number of
   address spaces, every request is granted exactly when it should be, every read returns
   the eager machine's bytes, and every page afterwards is the eager machine's.  An address
   space that no event concerns keeps its bytes; one that does not fork either keeps its
   rights.
   */
  method Run(m: Mmu, evs: seq<Event>) returns (answers: seq<Answer>, ghost ws: seq<World>)
    requires m.Valid()
    modifies m
    ensures m.Valid() && m.all == old(m.all)
    ensures IsTrace(ws, evs, answers) && ws[0] == old(m.W()) && ws[|evs|] == m.W()
    ensures forall d :: d in old(m.eager) && Apart(evs, d) ==> d in m.eager && SomeMarked(old(m.eager)[d], m.eager[d])
    ensures forall d :: d in old(m.eager) && Apart(evs, d) && Childless(evs, d) ==> d in m.eager && m.eager[d] == old(m.eager)[d]
  {
    answers, ws := [], [m.W()];
    for i := 0 to |evs|
      invariant m.Valid() && m.all == old(m.all) && IsTrace(ws, evs[..i], answers)
      invariant ws[0] == old(m.W()) && ws[i] == m.W()
    {
      ghost var was := ws;
      var a := Step(m, evs[i]);
      ws := ws + [m.W()];
      TraceMore(was, evs[..i], answers, evs[i], a, m.W());
      assert evs[..i] + [evs[i]] == evs[..i + 1];
      answers := answers + [a];
    }
    assert evs[..|evs|] == evs;
    forall d | d in old(m.eager) && Apart(evs, d)
      ensures d in m.eager && SomeMarked(old(m.eager)[d], m.eager[d])
      ensures Childless(evs, d) ==> m.eager[d] == old(m.eager)[d]
    {
      Isolated(ws, evs, answers, d);
    }
  }

  lemma TraceMore(ws: seq<World>, evs: seq<Event>, answers: seq<Answer>, ev: Event, a: Answer, w': World)
    requires IsTrace(ws, evs, answers) && Stepped(ws[|evs|], ev, a, w')
    ensures IsTrace(ws + [w'], evs + [ev], answers + [a])
  {
    var ws', evs', answers' := ws + [w'], evs + [ev], answers + [a];
    forall i | 0 <= i < |evs'| ensures Stepped(ws'[i], evs'[i], answers'[i], ws'[i + 1]) {
      if i < |evs| {
        assert Stepped(ws[i], evs[i], answers[i], ws[i + 1]);
      }
    }
  }

  // ---------------------------------------------------------------- isolation

  /** The events that may change what context `d` reads. */
  predicate Touches(ev: Event, d: nat) {
    match ev
    case Create(h) => h == d
    case Clone(_, h) => h == d
    case Release(c) => c == d
    case Fault(c, _, _, _, _) => c == d
    case Copy(c, _, _, write) => c == d && write
    case Unmap(c, _) => c == d
    case UnmapRange(c, _, _) => c == d
    case OthersAlloc => false
    case OthersFree(_) => false
  }

  ghost predicate Apart(evs: seq<Event>, d: nat) {
    forall i :: 0 <= i < |evs| ==> !Touches(evs[i], d)
  }

  ghost predicate Childless(evs: seq<Event>, d: nat) {
    forall i :: 0 <= i < |evs| ==> !(evs[i].Clone? && evs[i].src == d)
  }

  lemma StepApart(e: Eager, ev: Event, ok: bool, marked: set<Path>, d: nat)
    requires d in e && !Touches(ev, d)
    ensures d in EagerStep(e, ev, ok, marked) && SomeMarked(e[d], EagerStep(e, ev, ok, marked)[d])
    ensures !(ev.Clone? && ev.src == d) ==> EagerStep(e, ev, ok, marked)[d] == e[d]
  {
  }

  /** Parents, children and others never show through, whatever the run. */
  lemma {:induction false} Isolated(ws: seq<World>, evs: seq<Event>, answers: seq<Answer>, d: nat)
    requires IsTrace(ws, evs, answers) && d in ws[0].eager && Apart(evs, d)
    ensures d in ws[|evs|].eager && SomeMarked(ws[0].eager[d], ws[|evs|].eager[d])
    ensures Childless(evs, d) ==> ws[|evs|].eager[d] == ws[0].eager[d]
    decreases |evs|
  {
    if evs != [] {
      var n := |evs| - 1;
      assert forall i :: 0 <= i < n ==> Stepped(ws[i], evs[i], answers[i], ws[i + 1]);
      Isolated(ws[..n + 1], evs[..n], answers[..n], d);
      assert Stepped(ws[n], evs[n], answers[n], ws[n + 1]);
      StepApart(ws[n].eager, evs[n], answers[n].ok, Marks(ws[n], evs[n]), d);
    }
  }
}
