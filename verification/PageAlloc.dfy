/**
 The physical page allocator (`page_alloc.c`): a state array, reference counts, a free
 list threaded through the free pages themselves, and counters.  Every operation keeps
 the three agreeing and implements the corresponding operation of `Pool`.
 */
module PageAlloc {
  import opened Pool
  import opened Wrappers

  const RAM_BASE: int := 0x4000_0000
  const RAM_END: int := 0x4800_0000
  const PAGES: int := 0x8000

  datatype PageState = Unused | Free | Allocated
  datatype Page = Page(state: PageState, refs: nat)

  function Index(pa: int): int { (pa - RAM_BASE) / PAGE_SIZE }

  function Addr(i: int): int { RAM_BASE + i * PAGE_SIZE }

  predicate Managed(start: int, pa: int) { start <= pa < RAM_END && pa % PAGE_SIZE == 0 }

  lemma IndexAddr(start: int, pa: int)
    requires RAM_BASE <= start && Managed(start, pa)
    ensures 0 <= Index(pa) < PAGES && Addr(Index(pa)) == pa
  {
  }

  lemma AddrIndex(i: int)
    requires 0 <= i < PAGES
    ensures Index(Addr(i)) == i && Addr(i) % PAGE_SIZE == 0 && RAM_BASE <= Addr(i) < RAM_END
  {
  }

  /** The page an address lies in. */
  function Base(pa: int): int { pa - pa % PAGE_SIZE }

  lemma BaseIndex(start: int, pa: int)
    requires RAM_BASE <= start && start % PAGE_SIZE == 0 && start <= pa < RAM_END
    ensures Managed(start, Base(pa)) && Index(pa) == Index(Base(pa))
  {
  }

  // ---------------------------------------------------------------- the free list

  ghost function First(l: seq<int>): int { if l == [] then 0 else l[0] }

  /** The links in memory spell the list `l` from `head`. */
  ghost predicate Threaded(links: map<int, int>, head: int, l: seq<int>) {
    && head == First(l)
    && forall k :: 0 <= k < |l| ==> l[k] in links && links[l[k]] == First(l[k + 1..])
  }

  lemma Push(links: map<int, int>, head: int, l: seq<int>, pa: int)
    requires Threaded(links, head, l) && pa !in l
    ensures Threaded(links[pa := head], pa, [pa] + l)
  {
    forall k | 0 <= k < |l| + 1
      ensures ([pa] + l)[k] in links[pa := head]
      ensures links[pa := head][([pa] + l)[k]] == First(([pa] + l)[k + 1..])
    {
      if k == 0 {
        assert ([pa] + l)[1..] == l;
      } else {
        assert ([pa] + l)[k] == l[k - 1];
        assert ([pa] + l)[k + 1..] == l[k..];
      }
    }
  }

  lemma Pop(links: map<int, int>, head: int, l: seq<int>)
    requires Threaded(links, head, l) && l != []
    ensures Threaded(links, links[head], l[1..])
  {
    assert l[0 + 1..] == l[1..];
    forall k | 0 <= k < |l[1..]| ensures links[l[1..][k]] == First(l[1..][k + 1..]) {
      assert l[1..][k] == l[k + 1];
      assert l[1..][k + 1..] == l[k + 2..];
    }
  }

  /** Addresses of the free pages from index `i` on, in ascending order. */
  ghost function FreeFrom(ps: seq<Page>, i: nat): seq<int>
    decreases |ps| - i
  {
    if i >= |ps| then []
    else (if ps[i].state.Free? then [Addr(i)] else []) + FreeFrom(ps, i + 1)
  }

  /** It lists each free page once and nothing else. */
  lemma {:induction false} FreeFromExact(ps: seq<Page>, i: nat)
    requires |ps| == PAGES
    ensures forall k :: 0 <= k < |FreeFrom(ps, i)| ==> Addr(i) <= FreeFrom(ps, i)[k]
    ensures forall j, k :: 0 <= j < k < |FreeFrom(ps, i)| ==> FreeFrom(ps, i)[j] < FreeFrom(ps, i)[k]
    ensures forall j :: i <= j < PAGES ==> (Addr(j) in FreeFrom(ps, i) <==> ps[j].state.Free?)
    ensures forall pa :: pa in FreeFrom(ps, i) ==> RAM_BASE <= pa < RAM_END && pa % PAGE_SIZE == 0
    decreases |ps| - i
  {
    if i < |ps| {
      FreeFromExact(ps, i + 1);
      AddrIndex(i);
      var rest := FreeFrom(ps, i + 1);
      assert forall pa :: pa in rest ==> Addr(i + 1) <= pa;
    }
  }

  // ---------------------------------------------------------------- the book

  /** State array, list and counter agree. */
  ghost predicate Book(ps: seq<Page>, start: int, l: seq<int>) {
    && |ps| == PAGES && RAM_BASE <= start <= RAM_END && start % PAGE_SIZE == 0
    && NoDup(l) && (forall pa :: pa in l ==> Managed(start, pa))
    && (forall pa :: Managed(start, pa) ==> Listed(ps, l, pa))
    && (forall i :: 0 <= i < PAGES && Addr(i) < start ==> ps[i].state.Unused?)
  }

  ghost predicate Listed(ps: seq<Page>, l: seq<int>, pa: int) {
    && 0 <= Index(pa) < |ps|
    && !ps[Index(pa)].state.Unused?
    && (ps[Index(pa)].state.Free? <==> pa in l)
    && (ps[Index(pa)].state.Allocated? ==> 1 <= ps[Index(pa)].refs <= REF_MAX)
  }

  /** The references of the allocated pages. */
  ghost function Refs(ps: seq<Page>, start: int): map<int, nat>
    requires |ps| == PAGES && RAM_BASE <= start
  {
    map pa: int | start <= pa < RAM_END && InUse(ps, start, pa) :: ps[Index(pa)].refs
  }

  predicate InUse(ps: seq<Page>, start: int, pa: int)
    requires |ps| == PAGES && RAM_BASE <= start
    ensures InUse(ps, start, pa) ==> Managed(start, pa) && 0 <= Index(pa) < PAGES
  {
    Managed(start, pa) && (IndexAddr(start, pa); ps[Index(pa)].state.Allocated?)
  }

  lemma BookPool(ps: seq<Page>, start: int, l: seq<int>)
    requires Book(ps, start, l)
    ensures Pool(l, Refs(ps, start)).Valid()
  {
    forall pa | pa in Refs(ps, start) ensures pa != 0 && 1 <= Refs(ps, start)[pa] <= REF_MAX {
      assert Listed(ps, l, pa);
    }
    forall i | 0 <= i < |l| ensures l[i] !in Refs(ps, start) && l[i] != 0 {
      assert l[i] in l && Listed(ps, l, l[i]);
    }
  }

  lemma HeadZero(ps: seq<Page>, start: int, l: seq<int>)
    requires Book(ps, start, l)
    ensures First(l) == 0 <==> l == []
  {
    if l != [] {
      assert l[0] in l;
    }
  }

  /** Changing one managed page changes its own entry and no other. */
  lemma OnlyOne(ps: seq<Page>, start: int, pa: int, page: Page, q: int)
    requires |ps| == PAGES && RAM_BASE <= start && Managed(start, pa) && Managed(start, q)
    ensures 0 <= Index(pa) < PAGES && 0 <= Index(q) < PAGES
    ensures ps[Index(pa) := page][Index(q)] == if q == pa then page else ps[Index(q)]
  {
    IndexAddr(start, pa);
    IndexAddr(start, q);
  }

  /** A page leaves the list: it is handed out. */
  lemma TakeBook(ps: seq<Page>, start: int, l: seq<int>)
    requires Book(ps, start, l) && l != []
    ensures Managed(start, l[0]) && 0 <= Index(l[0]) < PAGES
    ensures var pa := l[0]; var ps' := ps[Index(pa) := Page(PageState.Allocated, 1)];
      Book(ps', start, l[1..]) && Refs(ps', start) == Refs(ps, start)[pa := 1]
  {
    var pa := l[0];
    assert pa in l;
    IndexAddr(start, pa);
    var ps' := ps[Index(pa) := Page(PageState.Allocated, 1)];
    forall q | Managed(start, q) ensures Listed(ps', l[1..], q) && (q in l[1..] <==> q in l && q != pa) {
      OnlyOne(ps, start, pa, Page(PageState.Allocated, 1), q);
      assert Listed(ps, l, q);
      assert l == [pa] + l[1..];
    }
    forall q | Managed(start, q) ensures InUse(ps', start, q) <==> InUse(ps, start, q) || q == pa {
      OnlyOne(ps, start, pa, Page(PageState.Allocated, 1), q);
    }
    assert Refs(ps', start) == Refs(ps, start)[pa := 1];
  }

  /** A page returns to the head of the list. */
  lemma GiveBook(ps: seq<Page>, start: int, l: seq<int>, pa: int, refs: nat)
    requires Book(ps, start, l) && InUse(ps, start, pa)
    ensures var ps' := ps[Index(pa) := Page(PageState.Free, refs)];
      Book(ps', start, [pa] + l) && Refs(ps', start) == Refs(ps, start) - {pa}
  {
    IndexAddr(start, pa);
    var ps' := ps[Index(pa) := Page(PageState.Free, refs)];
    assert Listed(ps, l, pa);
    forall q | Managed(start, q) ensures Listed(ps', [pa] + l, q) {
      OnlyOne(ps, start, pa, Page(PageState.Free, refs), q);
      assert Listed(ps, l, q);
    }
    forall q | Managed(start, q) ensures InUse(ps', start, q) <==> InUse(ps, start, q) && q != pa {
      OnlyOne(ps, start, pa, Page(PageState.Free, refs), q);
    }
    assert Refs(ps', start) == Refs(ps, start) - {pa};
  }

  /** An allocated page's count changes. */
  lemma CountBook(ps: seq<Page>, start: int, l: seq<int>, pa: int, refs: nat)
    requires Book(ps, start, l) && InUse(ps, start, pa) && 1 <= refs <= REF_MAX
    ensures var ps' := ps[Index(pa) := ps[Index(pa)].(refs := refs)];
      Book(ps', start, l) && Refs(ps', start) == Refs(ps, start)[pa := refs]
  {
    IndexAddr(start, pa);
    var page := ps[Index(pa)].(refs := refs);
    var ps' := ps[Index(pa) := page];
    forall q | Managed(start, q) ensures Listed(ps', l, q) {
      OnlyOne(ps, start, pa, page, q);
      assert Listed(ps, l, q);
    }
    forall q | Managed(start, q) ensures InUse(ps', start, q) <==> InUse(ps, start, q) {
      OnlyOne(ps, start, pa, page, q);
    }
    assert Refs(ps', start) == Refs(ps, start)[pa := refs];
  }

  lemma Misaligned(ps: seq<Page>, start: int, l: seq<int>, pa: int)
    requires pa % PAGE_SIZE != 0
    ensures !(Book(ps, start, l) && First(l) == pa)
  {
    assert l != [] ==> First(l) in l;
  }

  // ---------------------------------------------------------------- runs of free pages

  predicate RunAt(ps: seq<Page>, lo: int, i: int, n: int) {
    0 <= lo <= i && 0 < n && i + n <= |ps| && forall k :: i <= k < i + n ==> ps[k].state.Free?
  }

  lemma {:induction false} RunFits(ps: seq<Page>, start: int, l: seq<int>, i: int, n: nat)
    requires Book(ps, start, l) && RunAt(ps, Index(start), i, n)
    ensures n <= |l|
  {
    var run := set k | i <= k < i + n :: Addr(k);
    RunSize(i, n);
    forall pa | pa in run ensures pa in l {
      var k :| i <= k < i + n && pa == Addr(k);
      AddrIndex(k);
      assert Managed(start, pa) && Listed(ps, l, pa);
    }
    var elems := set pa | pa in l;
    ListSize(l);
    assert elems == run + (elems - run);
  }

  lemma {:induction false} RunSize(i: int, n: nat)
    ensures |set k | i <= k < i + n :: Addr(k)| == n
  {
    if n > 0 {
      RunSize(i, n - 1);
      assert (set k | i <= k < i + n :: Addr(k)) == (set k | i <= k < i + (n - 1) :: Addr(k)) + {Addr(i + n - 1)};
    }
  }

  lemma {:induction false} ListSize(l: seq<int>)
    ensures |set pa | pa in l| <= |l|
  {
    if l != [] {
      ListSize(l[1..]);
      assert (set pa | pa in l) == (set pa | pa in l[1..]) + {l[0]};
    }
  }

  // ---------------------------------------------------------------- the start

  lemma AlignUpBounds(v: int)
    requires RAM_BASE <= v <= RAM_END
    ensures v <= AlignUp(v) < v + PAGE_SIZE && AlignUp(v) % PAGE_SIZE == 0 && AlignUp(v) <= RAM_END
    ensures 0 <= Index(AlignUp(v)) <= PAGES && Addr(Index(AlignUp(v))) == AlignUp(v)
  {
  }

  /** Addresses of the pages from `lo` to `i`, the last first. */
  ghost function Down(lo: int, i: int): seq<int>
    decreases i - lo
  {
    if i <= lo then [] else [Addr(i - 1)] + Down(lo, i - 1)
  }

  lemma {:induction false} DownExact(lo: int, i: int)
    requires lo <= i
    ensures |Down(lo, i)| == i - lo && forall k :: 0 <= k < |Down(lo, i)| ==> Down(lo, i)[k] == Addr(i - 1 - k)
    decreases i - lo
  {
    if lo < i {
      DownExact(lo, i - 1);
    }
  }

  lemma StartBook(ps: seq<Page>, start: int, l: seq<int>)
    requires |ps| == PAGES && RAM_BASE <= start <= RAM_END && start % PAGE_SIZE == 0
    requires 0 <= Index(start) <= PAGES && Addr(Index(start)) == start && l == Down(Index(start), PAGES)
    requires forall k :: 0 <= k < PAGES ==>
      ps[k] == Page(if Index(start) <= k then PageState.Free else PageState.Unused, 0)
    ensures Book(ps, start, l) && Refs(ps, start) == map[]
    ensures |l| == PAGES - Index(start) == (RAM_END - start) / PAGE_SIZE
  {
    var lo := Index(start);
    DownExact(lo, PAGES);
    forall pa | Managed(start, pa) ensures Listed(ps, l, pa) {
      IndexAddr(start, pa);
      assert l[PAGES - 1 - Index(pa)] == pa;
    }
    forall k | 0 <= k < |l| ensures Managed(start, l[k]) {
      AddrIndex(PAGES - 1 - k);
    }
    assert forall pa :: !InUse(ps, start, pa);
  }

  // ---------------------------------------------------------------- rebuilding and counting

  /** The states of the pages make sense, whatever the list is. */
  ghost predicate States(ps: seq<Page>, start: int) {
    && |ps| == PAGES && RAM_BASE <= start <= RAM_END && start % PAGE_SIZE == 0
    && (forall i :: 0 <= i < Index(start) ==> ps[i].state.Unused?)
    && (forall i :: Index(start) <= i < PAGES ==> PageOk(ps[i]))
  }

  predicate PageOk(p: Page) {
    !p.state.Unused? && (p.state.Allocated? ==> 1 <= p.refs <= REF_MAX)
  }

  lemma BookStates(ps: seq<Page>, start: int, l: seq<int>)
    requires Book(ps, start, l)
    ensures States(ps, start)
  {
    forall i | Index(start) <= i < PAGES ensures PageOk(ps[i]) {
      AddrIndex(i);
      assert Listed(ps, l, Addr(i));
    }
  }

  /** The rebuilt list agrees with the states. */
  lemma RebuiltBook(ps: seq<Page>, start: int)
    requires States(ps, start)
    ensures Book(ps, start, FreeFrom(ps, Index(start)))
  {
    var l := FreeFrom(ps, Index(start));
    FreeFromExact(ps, Index(start));
    forall pa | Managed(start, pa) ensures Listed(ps, l, pa) {
      IndexAddr(start, pa);
      assert PageOk(ps[Index(pa)]);
    }
  }

  /** Any list that agrees with the states is as long as the rebuilt one. */
  lemma SameLength(ps: seq<Page>, start: int, l: seq<int>)
    requires Book(ps, start, l)
    ensures |l| == |FreeFrom(ps, Index(start))|
  {
    BookStates(ps, start, l);
    RebuiltBook(ps, start);
    var r := FreeFrom(ps, Index(start));
    forall pa ensures pa in l <==> pa in r {
      if Managed(start, pa) {
        assert Listed(ps, l, pa) && Listed(ps, r, pa);
      }
    }
    NoDupSize(l);
    NoDupSize(r);
    assert (set pa | pa in l) == (set pa | pa in r);
  }

  lemma {:induction false} NoDupSize(l: seq<int>)
    requires NoDup(l)
    ensures |set pa | pa in l| == |l|
  {
    if l != [] {
      NoDupSize(l[1..]);
      assert l[0] !in l[1..];
      assert (set pa | pa in l) == (set pa | pa in l[1..]) + {l[0]};
    }
  }

  function One(p: Page): nat { if p.state.Free? then 1 else 0 }

  /** Changing one page's state changes the count of free pages by that page. */
  lemma {:induction false} CountSet(ps: seq<Page>, i: nat, k: nat, page: Page)
    requires i <= k < |ps|
    ensures |FreeFrom(ps[k := page], i)| == |FreeFrom(ps, i)| - One(ps[k]) + One(page)
    decreases k - i
  {
    if i < k {
      CountSet(ps, i + 1, k, page);
    } else {
      FreeFromSuffix(ps, ps[k := page], k + 1);
    }
  }

  lemma {:induction false} FreeFromSuffix(ps: seq<Page>, qs: seq<Page>, i: nat)
    requires |ps| == |qs| && forall k :: i <= k < |ps| ==> ps[k] == qs[k]
    ensures FreeFrom(ps, i) == FreeFrom(qs, i)
    decreases |ps| - i
  {
    if i < |ps| {
      FreeFromSuffix(ps, qs, i + 1);
    }
  }

  /** The pages from index `i` to `i + n` became allocated, or free, and no others changed. */
  ghost predicate Marked(ps: seq<Page>, qs: seq<Page>, i: int, n: nat, taken: bool) {
    && |ps| == |qs| == PAGES && 0 <= i && i + n <= |ps|
    && (forall k :: 0 <= k < |ps| && !(i <= k < i + n) ==> qs[k] == ps[k])
    && (forall k :: i <= k < i + n ==>
          qs[k] == if taken then Page(PageState.Allocated, 1) else ps[k].(state := PageState.Free))
  }

  /** What `page_free_contiguous` accepts. */
  predicate Freeable(ps: seq<Page>, start: int, pa: int, n: nat) {
    && n > 0 && pa % PAGE_SIZE == 0 && RAM_BASE <= start <= pa && pa + n * PAGE_SIZE <= RAM_END
    && |ps| == PAGES && (InRange(start, pa, n); forall k :: Index(pa) <= k < Index(pa) + n ==> ps[k].state.Allocated?)
  }

  /** The end of a range as the code computes it, in 64 bits. */
  function EndOf(pa: Word, n: Word): Word { Plus(pa, n * PAGE_SIZE % WORD) }

  /**
   The range test is passed only because its sum wrapped round, and no page from `pa` on
   stops the scan: the code then reads past the page table.
   */
  predicate Overruns(ps: seq<Page>, start: int, pa: Word, n: Word) {
    && start <= pa && pa % PAGE_SIZE == 0 && n > 0 && EndOf(pa, n) <= RAM_END < pa + n * PAGE_SIZE
    && forall k :: 0 <= k < |ps| && Index(pa) <= k ==> ps[k].state.Allocated?
  }

  /** Where the range does not reach 2^64, the test is the one meant. */
  lemma EndExact(pa: Word, n: Word)
    ensures pa + n * PAGE_SIZE < WORD ==> EndOf(pa, n) == pa + n * PAGE_SIZE
  {
  }

  /** The tests before the scan are passed. */
  predicate RangeTest(start: int, pa: Word, n: Word) {
    n > 0 && pa % PAGE_SIZE == 0 && start <= pa && EndOf(pa, n) <= RAM_END
  }

  /** The scan reads entry `Index(pa) + k`: the entries before it are in the table and allocated. */
  ghost predicate ScanReads(ps: seq<Page>, pa: int, n: nat, k: nat) {
    k < n && forall i :: Index(pa) <= i < Index(pa) + k ==> EntryTaken(ps, i)
  }

  predicate EntryTaken(ps: seq<Page>, i: int) { 0 <= i < |ps| && ps[i].state.Allocated? }

  /** Exactly the calls in `Overruns` make the scan read past the table. */
  lemma OverrunsExact(ps: seq<Page>, start: int, pa: Word, n: Word)
    requires States(ps, start)
    ensures Overruns(ps, start, pa, n) <==>
      RangeTest(start, pa, n) && exists k: nat :: ScanReads(ps, pa, n, k) && Index(pa) + k >= PAGES
  {
    if Overruns(ps, start, pa, n) {
      OverrunReads(ps, start, pa, n);
    }
    if RangeTest(start, pa, n) && exists k: nat :: ScanReads(ps, pa, n, k) && Index(pa) + k >= PAGES {
      var k: nat :| ScanReads(ps, pa, n, k) && Index(pa) + k >= PAGES;
      EndBeyond(pa, n, k);
      forall i | 0 <= i < |ps| && Index(pa) <= i ensures ps[i].state.Allocated? {
        assert EntryTaken(ps, i);
      }
    }
  }

  lemma OverrunReads(ps: seq<Page>, start: int, pa: Word, n: Word)
    requires |ps| == PAGES && RAM_BASE <= start && Overruns(ps, start, pa, n)
    ensures exists k: nat :: ScanReads(ps, pa, n, k) && Index(pa) + k >= PAGES
  {
    PastEnd(start, pa, n);
    var k := if Index(pa) >= PAGES then 0 else PAGES - Index(pa);
    assert ScanReads(ps, pa, n, k);
  }

  lemma EndBeyond(pa: int, n: nat, k: nat)
    requires RAM_BASE <= pa && pa % PAGE_SIZE == 0 && k < n && Index(pa) + k >= PAGES
    ensures pa + n * PAGE_SIZE > RAM_END
  {
  }

  /** A range as long as the address space passes the test wherever it starts. */
  lemma WrapsRound(ps: seq<Page>, start: int, pa: Word)
    requires |ps| == PAGES && RAM_BASE <= start <= pa <= RAM_END && pa % PAGE_SIZE == 0
    requires forall k :: 0 <= k < |ps| && Index(pa) <= k ==> ps[k].state.Allocated?
    ensures Overruns(ps, start, pa, 0x10_0000_0000_0000) && RangeTest(start, pa, 0x10_0000_0000_0000)
    ensures exists k: nat :: ScanReads(ps, pa, 0x10_0000_0000_0000, k) && Index(pa) + k >= PAGES
  {
    OverrunReads(ps, start, pa, 0x10_0000_0000_0000);
  }

  lemma {:induction false} MarkedCount(ps: seq<Page>, qs: seq<Page>, start: int, i: int, n: nat, taken: bool)
    requires States(ps, start) && Marked(ps, qs, i, n, taken) && Index(start) <= i
    requires forall k :: i <= k < i + n ==> (if taken then ps[k].state.Free? else ps[k].state.Allocated?)
    ensures States(qs, start)
    ensures |FreeFrom(qs, Index(start))| - |FreeFrom(ps, Index(start))| == if taken then 0 - n else n
    decreases n
  {
    if n == 0 {
      assert ps == qs;
    } else {
      var k := i + n - 1;
      var mid := qs[k := ps[k]];
      MarkedCount(ps, mid, start, i, n - 1, taken);
      assert mid[k := qs[k]] == qs;
      CountSet(mid, Index(start), k, qs[k]);
    }
  }

  class PageAllocator {
    const start: int                   // the first managed page; the last one ends RAM
    const pages: array<Page>
    var links: map<int, int>           // the link word at the start of each page, while it is free
    var head: int
    var total: nat
    var free: nat
    var invalidFrees: nat
    var doubleFrees: nat
    ghost var list: seq<int>

    ghost predicate Consistent(l: seq<int>)
      reads this, pages
    {
      && Book(pages[..], start, l) && Threaded(links, head, l)
      && free == |l| && total == (RAM_END - start) / PAGE_SIZE
    }

    ghost predicate Valid()
      reads this, pages
    {
      Consistent(list)
    }

    /** What the callers see. */
    ghost function View(): Pool
      requires Valid()
      reads this, pages
    {
      Pool(list, Refs(pages[..], start))
    }

    /** `page_allocator_init`: everything from the end of the kernel image on is free. */
    constructor (kernelEnd: int)
      requires RAM_BASE <= kernelEnd <= RAM_END
      ensures Valid() && fresh(pages) && start == AlignUp(kernelEnd)
      ensures View().refs == map[] && invalidFrees == doubleFrees == 0
      ensures |View().free| == (RAM_END - start) / PAGE_SIZE
      ensures forall k :: 0 <= k < |View().free| ==> View().free[k] == RAM_END - (k + 1) * PAGE_SIZE
    {
      start := AlignUp(kernelEnd);
      pages := new Page[PAGES](_ => Page(PageState.Unused, 0));
      links, head, total, free, invalidFrees, doubleFrees, list := map[], 0, 0, 0, 0, 0, [];
      new;
      AlignUpBounds(kernelEnd);
      ghost var i := Index(start);
      ghost var lo := i;
      var pa := start;
      while pa + PAGE_SIZE <= RAM_END
        invariant lo <= i <= PAGES && pa == Addr(i) && start == AlignUp(kernelEnd) && Seeded(lo, i)
        invariant fresh(pages) && invalidFrees == doubleFrees == 0
        decreases PAGES - i
      {
        AddrIndex(i);
        FreeNext(pa, lo, i);
        i := i + 1;
        pa := pa + PAGE_SIZE;
      }
      StartBook(pages[..], start, list);
      DownExact(lo, PAGES);
    }

    /** The pages from `lo` up to `i` are free and listed from the top down; no other is in use. */
    ghost predicate Seeded(lo: int, i: int)
      reads this, pages
    {
      && 0 <= lo <= i <= PAGES && pages.Length == PAGES
      && (forall k :: 0 <= k < PAGES ==> pages[k] == Page(if lo <= k < i then PageState.Free else PageState.Unused, 0))
      && total == free == i - lo && list == Down(lo, i) && Threaded(links, head, list)
    }

    /** One round of the loop of `page_allocator_init`. */
    method FreeNext(pa: int, ghost lo: int, ghost i: int)
      requires Seeded(lo, i) && i < PAGES && pa == Addr(i)
      modifies this, pages
      ensures Seeded(lo, i + 1)
      ensures invalidFrees == old(invalidFrees) && doubleFrees == old(doubleFrees)
    {
      AddrIndex(i);
      DownExact(lo, i);
      Push(links, head, list, pa);
      links := links[pa := head];
      head := pa;
      pages[Index(pa)] := Page(PageState.Free, 0);
      total := total + 1;
      free := free + 1;
      list := [pa] + list;
    }

    method Alloc() returns (pa: int)
      requires Valid()
      modifies this, pages
      ensures Valid() && View().Valid() && old(View()).Valid()
      ensures (View(), pa) == old(View()).Alloc() && invalidFrees == old(invalidFrees) && doubleFrees == old(doubleFrees)
    {
      BookPool(pages[..], start, list);
      HeadZero(pages[..], start, list);
      pa := head;
      if pa == 0 {
        return;
      }
      TakeBook(pages[..], start, list);
      Pop(links, head, list);
      head := links[pa];
      pages[Index(pa)] := Page(PageState.Allocated, 1);
      free := free - 1;
      list := list[1..];
      BookPool(pages[..], start, list);
    }

    method Free(pa: int)
      requires Valid()
      modifies this, pages
      ensures Valid() && old(View()).Valid() && View() == old(View()).Free(pa)
      ensures invalidFrees == old(invalidFrees) + (if pa != 0 && !(pa % 4096 == 0 && start <= pa < RAM_END) then 1 else 0)
      ensures doubleFrees == old(doubleFrees) + (if pa != 0 && pa % 4096 == 0 && start <= pa < RAM_END && pa !in old(View()).refs then 1 else 0)
    {
      BookPool(pages[..], start, list);
      if pa == 0 {
        return;
      }
      if pa % PAGE_SIZE != 0 {
        invalidFrees := invalidFrees + 1;
        return;
      }
      if pa < start || pa >= RAM_END {
        invalidFrees := invalidFrees + 1;
        return;
      }
      IndexAddr(start, pa);
      var i := Index(pa);
      assert Listed(pages[..], list, pa);
      if !pages[i].state.Allocated? {
        doubleFrees := doubleFrees + 1;
        return;
      }
      if pages[i].refs > 1 {
        SetRefs(i, pages[i].refs - 1, pa);
        return;
      }
      GiveBack(pa, i);
    }

    /** The last reference is gone: the page goes to the head of the list. */
    method GiveBack(pa: int, i: int)
      requires Valid() && InUse(pages[..], start, pa) && i == Index(pa)
      modifies this, pages
      ensures Valid() && View() == Pool([pa] + old(View()).free, old(View()).refs - {pa})
      ensures invalidFrees == old(invalidFrees) && doubleFrees == old(doubleFrees)
    {
      GiveBook(pages[..], start, list, pa, 0);
      Push(links, head, list, pa);
      pages[i] := Page(PageState.Free, 0);
      links := links[pa := head];
      head := pa;
      free := free + 1;
      list := [pa] + list;
    }

    /** Store a new count for page `base`, whose index is `i`. */
    method SetRefs(i: int, n: nat, ghost base: int)
      requires Valid() && InUse(pages[..], start, base) && i == Index(base) && 1 <= n <= REF_MAX
      modifies pages
      ensures Valid() && View() == old(View()).(refs := old(View()).refs[base := n])
    {
      CountBook(pages[..], start, list, base, n);
      ghost var ps := pages[..];
      pages[i] := pages[i].(refs := n);
      assert pages[..] == ps[i := ps[i].(refs := n)];
    }

    /** The count of the page that holds `pa`, aligned or not. */
    method RefInc(pa: int)
      requires Valid()
      modifies pages
      ensures Valid() && old(View()).Valid() && View() == old(View()).RefInc(Base(pa))
    {
      InPool(pa);
      if pa < start || pa >= RAM_END {
        return;
      }
      var i := Index(pa);
      if !pages[i].state.Allocated? || pages[i].refs == 0 || pages[i].refs == REF_MAX {
        return;
      }
      SetRefs(i, pages[i].refs + 1, Base(pa));
    }

    /** What the view says of the page an address lies in. */
    lemma InPool(pa: int)
      requires Valid()
      ensures View().Valid()
      ensures start <= pa < RAM_END ==> 0 <= Index(pa) < PAGES && Index(pa) == Index(Base(pa))
      ensures start <= pa < RAM_END ==> (pages[Index(pa)].state.Allocated? <==> InUse(pages[..], start, Base(pa)))
      ensures Base(pa) in View().refs <==> start <= pa < RAM_END && pages[Index(pa)].state.Allocated?
      ensures Base(pa) in View().refs ==> View().refs[Base(pa)] == pages[Index(pa)].refs && pages[Index(pa)].refs > 0
    {
      BookPool(pages[..], start, list);
      if start <= pa < RAM_END {
        BaseIndex(start, pa);
        assert Listed(pages[..], list, Base(pa));
      }
    }

    method RefGet(pa: int) returns (n: nat)
      requires Valid()
      ensures n == View().RefGet(Base(pa))
    {
      InPool(pa);
      if pa < start || pa >= RAM_END {
        return 0;
      }
      if !pages[Index(pa)].state.Allocated? {
        return 0;
      }
      n := pages[Index(pa)].refs;
    }

    /**
     `page_ref_dec` does not check alignment.  It is `Pool.RefDec` exactly when `pa` is
     aligned or not the last reference; the last reference through an unaligned address
     threads that address into the free list, and the book can no longer be made to agree.
     */
    method RefDec(pa: int) returns (freed: bool)
      requires Valid()
      modifies this, pages
      ensures old(View()).Valid()
      ensures Valid() <==> pa % PAGE_SIZE == 0 || old(View()).RefGet(Base(pa)) != 1
      ensures Valid() ==> View() == old(View()).RefDec(Base(pa)) && (freed <==> old(View()).RefGet(Base(pa)) == 1)
      ensures !Valid() ==> head == pa && forall l :: !Consistent(l)
    {
      InPool(pa);
      ghost var v := View();
      if pa < start || pa >= RAM_END {
        return false;
      }
      var i := Index(pa);
      if !pages[i].state.Allocated? || pages[i].refs == 0 {
        return false;
      }
      if pages[i].refs - 1 != 0 {
        SetRefs(i, pages[i].refs - 1, Base(pa));
        assert View() == v.RefDec(Base(pa));
        return false;
      }
      ReturnLast(pa, i);
      assert Pool([Base(pa)] + v.free, v.refs - {Base(pa)}) == v.RefDec(Base(pa));
      freed := true;
    }

    /** The last reference is gone: the address given, aligned or not, heads the free list. */
    method ReturnLast(pa: int, i: int)
      requires Valid() && start <= pa < RAM_END && i == Index(pa) && i == Index(Base(pa))
      requires InUse(pages[..], start, Base(pa)) && pages[i].refs == 1
      modifies this, pages
      ensures Valid() <==> pa % PAGE_SIZE == 0
      ensures Valid() ==> View() == Pool([Base(pa)] + old(View()).free, old(View()).refs - {Base(pa)})
      ensures !Valid() ==> head == pa && forall l :: !Consistent(l)
    {
      ghost var ps := pages[..];
      GiveBook(ps, start, list, Base(pa), 0);
      assert Listed(ps, list, Base(pa));
      if pa == Base(pa) {
        Push(links, head, list, pa);
      }
      links := links[pa := head];
      head := pa;
      pages[i] := Page(PageState.Free, 0);
      free := free + 1;
      list := [Base(pa)] + list;
      assert pages[..] == ps[i := Page(PageState.Free, 0)];
      if pa != Base(pa) {
        forall l ensures !Consistent(l) {
          Misaligned(pages[..], start, l, pa);
        }
      }
    }

    /** `page_allocator_rebuild_free_list`, from the last page down. */
    method Rebuild()
      requires States(pages[..], start)
      modifies this`links, this`head, this`list
      ensures list == FreeFrom(pages[..], Index(start)) && Threaded(links, head, list)
    {
      head := 0;
      list := [];
      var pa := RAM_END - PAGE_SIZE;
      ghost var i := PAGES;
      while pa >= start
        invariant Index(start) <= i <= PAGES && pa == Addr(i) - PAGE_SIZE && RAM_BASE <= start
        invariant list == FreeFrom(pages[..], i) && Threaded(links, head, list)
        decreases pa
      {
        ghost var j := i - 1;
        AddrIndex(j);
        assert pa == Addr(j);
        if pages[Index(pa)].state.Free? {
          NotYet(pages[..], i);
          Push(links, head, list, pa);
          links := links[pa := head];
          head := pa;
          list := [pa] + list;
        } else {
          assert [] + list == list;
        }
        i := j;
        if pa == start {
          break;
        }
        pa := pa - PAGE_SIZE;
      }
    }

    /**
     The lowest run of `n` free pages, all of it now allocated; 0 exactly when there is no
     such run, and then nothing changes.
     */
    method AllocContiguous(n: nat) returns (pa: int)
      requires Valid()
      modifies this, pages
      ensures Valid()
      ensures pa == 0 <==> forall j :: !RunAt(old(pages[..]), Index(start), j, n)
      ensures pa == 0 ==> pages[..] == old(pages[..]) && list == old(list)
      ensures pa != 0 ==> RunAt(old(pages[..]), Index(start), Index(pa), n) && pa == Addr(Index(pa))
      ensures pa != 0 ==> forall j :: j < Index(pa) ==> !RunAt(old(pages[..]), Index(start), j, n)
      ensures pa != 0 ==> Marked(old(pages[..]), pages[..], Index(pa), n, true)
      ensures pa != 0 ==> list == FreeFrom(pages[..], Index(start))
      ensures invalidFrees == old(invalidFrees) && doubleFrees == old(doubleFrees)
    {
      ghost var ps := pages[..];
      if n == 0 || n > free {
        forall j ensures !RunAt(ps, Index(start), j, n) {
          if RunAt(ps, Index(start), j, n) {
            RunFits(ps, start, list, j, n);
          }
        }
        return 0;
      }
      BookStates(ps, start, list);
      var i := FindRun(n);
      if i < 0 {
        return 0;
      }
      MarkRun(i, n);
      SameLength(ps, start, list);
      MarkedCount(ps, pages[..], start, i, n, true);
      free := free - n;
      RebuiltBook(pages[..], start);
      Rebuild();
      AddrIndex(i);
      pa := Addr(i);
    }

    /** The scan of `page_alloc_contiguous`: index of the lowest run, or -1. */
    method FindRun(n: nat) returns (i: int)
      requires States(pages[..], start) && n > 0
      ensures i < 0 ==> forall j :: !RunAt(pages[..], Index(start), j, n)
      ensures i >= 0 ==> RunAt(pages[..], Index(start), i, n)
      ensures i >= 0 ==> forall j :: j < i ==> !RunAt(pages[..], Index(start), j, n)
    {
      ghost var ps, lo := pages[..], Index(start);
      var length := 0;
      var cur := Index(start);
      while cur < PAGES
        invariant lo <= cur <= PAGES && 0 <= length < n && lo <= cur - length
        invariant forall k :: cur - length <= k < cur ==> ps[k].state.Free?
        invariant cur - length > lo ==> !ps[cur - length - 1].state.Free?
        invariant forall j :: j + n <= cur ==> !RunAt(ps, lo, j, n)
      {
        if pages[cur].state.Free? {
          length := length + 1;
          if length == n {
            return cur + 1 - n;
          }
          forall j | j + n <= cur + 1 ensures !RunAt(ps, lo, j, n) {
            if j + n == cur + 1 && lo <= j {
              assert j <= cur - length < cur + 1;
            }
          }
        } else {
          length := 0;
        }
        cur := cur + 1;
      }
      i := -1;
    }

    method MarkRun(i: int, n: nat)
      requires pages.Length == PAGES && 0 <= i && i + n <= PAGES
      modifies pages
      ensures Marked(old(pages[..]), pages[..], i, n, true)
    {
      for offset := 0 to n
        invariant Marked(old(pages[..]), pages[..], i, offset, true)
      {
        pages[i + offset] := Page(PageState.Allocated, 1);
      }
    }

    /**
     `page_free_contiguous`: all of the range or none of it.  A shared page in the range
     loses every reference, and its stale count stays behind until it is allocated again.
     */
    method FreeContiguous(pa: Word, n: Word) returns (ok: bool)
      requires Valid() && !Overruns(pages[..], start, pa, n)
      modifies this, pages
      ensures Valid()
      ensures ok <==> Freeable(old(pages[..]), start, pa, n)
      ensures !ok ==> pages[..] == old(pages[..]) && list == old(list)
      ensures ok ==> Marked(old(pages[..]), pages[..], Index(pa), n, false)
      ensures ok ==> list == FreeFrom(pages[..], Index(start))
      ensures invalidFrees == old(invalidFrees) + (if pa != 0 && n != 0 && !RangeTest(start, pa, n) then 1 else 0)
      ensures doubleFrees == old(doubleFrees) + (if pa != 0 && n != 0 && RangeTest(start, pa, n) && !ok then 1 else 0)
    {
      if pa == 0 || n == 0 {
        return false;
      }
      if pa % PAGE_SIZE != 0 {
        invalidFrees := invalidFrees + 1;
        return false;
      }
      EndExact(pa, n);
      if pa < start || EndOf(pa, n) > RAM_END {
        invalidFrees := invalidFrees + 1;
        return false;
      }
      ghost var ps := pages[..];
      BookStates(ps, start, list);
      if pa + n * PAGE_SIZE <= RAM_END {
        InRange(start, pa, n);
      } else {
        PastEnd(start, pa, n);
      }
      var i := Index(pa);
      ok := AllAllocated(i, n);
      if !ok {
        doubleFrees := doubleFrees + 1;
        return;
      }
      UnmarkRun(i, n);
      SameLength(ps, start, list);
      MarkedCount(ps, pages[..], start, i, n, false);
      free := free + n;
      RebuiltBook(pages[..], start);
      Rebuild();
    }

    method AllAllocated(i: int, n: nat) returns (ok: bool)
      requires 0 <= i && (i + n <= pages.Length || exists k :: i <= k < pages.Length && !pages[k].state.Allocated?)
      ensures ok <==> i + n <= pages.Length && forall k :: i <= k < i + n ==> pages[k].state.Allocated?
    {
      for offset := 0 to n
        invariant i + offset <= pages.Length || i + n <= pages.Length
        invariant i + offset <= pages.Length && forall k :: i <= k < i + offset ==> pages[k].state.Allocated?
      {
        if !pages[i + offset].state.Allocated? {
          return false;
        }
      }
      ok := true;
    }

    method UnmarkRun(i: int, n: nat)
      requires pages.Length == PAGES && 0 <= i && i + n <= PAGES
      modifies pages
      ensures Marked(old(pages[..]), pages[..], i, n, false)
    {
      for offset := 0 to n
        invariant Marked(old(pages[..]), pages[..], i, offset, false)
      {
        pages[i + offset] := pages[i + offset].(state := PageState.Free);
      }
    }

    method CountFreeList() returns (count: nat)
      requires Threaded(links, head, list) && 0 !in list
      ensures count == |list|
    {
      var node := head;
      count := 0;
      while node != 0
        invariant count <= |list| && node == First(list[count..])
        decreases |list| - count
      {
        assert node == list[count];
        count := count + 1;
        node := links[node];
      }
    }

    /** `page_allocator_check_consistency` never finds anything. */
    method CheckConsistency() returns (mismatches: int)
      requires Valid()
      ensures mismatches == 0
    {
      ghost var ps, lo := pages[..], Index(start);
      BookStates(ps, start, list);
      SameLength(ps, start, list);
      var frees, used := 0, 0;
      mismatches := 0;
      var cur := Index(start);
      while cur < PAGES
        invariant lo <= cur <= PAGES && mismatches == 0
        invariant frees == |FreeFrom(ps, lo)| - |FreeFrom(ps, cur)| && frees + used == cur - lo
      {
        assert PageOk(ps[cur]);
        if pages[cur].state.Free? {
          frees := frees + 1;
        } else if pages[cur].state.Allocated? {
          used := used + 1;
        } else {
          mismatches := mismatches + 1;
        }
        cur := cur + 1;
      }
      if frees + used != total {
        mismatches := mismatches + 1;
      }
      if frees != free {
        mismatches := mismatches + 1;
      }
      NotZero(ps, start, list);
      var nodes := CountFreeList();
      if nodes != free {
        mismatches := mismatches + 1;
      }
    }
  }

  /** With its last page allocated, a run of 2^52 pages from it makes the scan read past the table. */
  method ScanLeavesTable() returns (a: PageAllocator, pa: Word)
    ensures fresh(a) && a.Valid() && RangeTest(a.start, pa, 0x10_0000_0000_0000)
    ensures exists k: nat :: ScanReads(a.pages[..], pa, 0x10_0000_0000_0000, k) && Index(pa) + k >= PAGES
  {
    a := new PageAllocator(0x47ff_f000);
    var page := a.Alloc();
    pa := 0x47ff_f000;
    assert page == pa;
    assert pa in a.View().refs;
    ghost var ps := a.pages[..];
    assert InUse(ps, a.start, pa);
    WrapsRound(ps, a.start, pa);
    BookStates(ps, a.start, a.list);
    OverrunsExact(ps, a.start, pa, 0x10_0000_0000_0000);
  }

  /** Two calls that corrupt the free list: the only reference to a page is dropped through an address inside it. */
  method UnalignedDrop() returns (a: PageAllocator, pa: int)
    ensures fresh(a) && pa % PAGE_SIZE == 1 && a.head == pa && !a.Valid() && forall l :: !a.Consistent(l)
  {
    a := new PageAllocator(RAM_BASE);
    var page := a.Alloc();
    pa := page + 1;
    assert Base(pa) == page;
    var freed := a.RefDec(pa);
  }

  lemma NotZero(ps: seq<Page>, start: int, l: seq<int>)
    requires Book(ps, start, l)
    ensures 0 !in l
  {
  }

  lemma InRange(start: int, pa: int, n: nat)
    requires RAM_BASE <= start <= pa && pa % PAGE_SIZE == 0 && pa + n * PAGE_SIZE <= RAM_END
    ensures 0 <= Index(start) <= Index(pa) && Index(pa) + n <= PAGES
  {
  }

  lemma PastEnd(start: int, pa: int, n: nat)
    requires RAM_BASE <= start <= pa && pa % PAGE_SIZE == 0 && pa + n * PAGE_SIZE > RAM_END
    ensures 0 <= Index(start) <= Index(pa) && Index(pa) + n > PAGES
  {
  }

  lemma NotYet(ps: seq<Page>, i: nat)
    requires |ps| == PAGES && 0 < i <= PAGES
    ensures Addr(i - 1) !in FreeFrom(ps, i)
  {
    FreeFromExact(ps, i);
  }
}
