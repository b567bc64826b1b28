/**
 The boot page tables (`mmu_boot.c`): a device gigabyte, fine mappings over the kernel image
 and blocks over the rest of RAM.  The same code builds the identity tree and the kernel's.
 */
module BootMap {
  import opened Wrappers
  import opened Descriptor
  import opened AddressSpace
  import opened Mmu
  import opened Guarantees
  import UserCopy

  const GIB: nat := 0x4000_0000
  const RAM_BASE: nat := 0x4000_0000
  const RAM_END: nat := 0x4800_0000
  const CHUNK: nat := 0x20_0000
  const CHUNKS: nat := 64                // RAM, in chunks of 2 MiB
  const MIN_FINE: nat := 2

  /** The linker's section addresses, as physical addresses. */
  datatype Layout = Layout(text: nat, textEnd: nat, guard: nat, guardEnd: nat, rodata: nat, rodataEnd: nat, kernelEnd: nat)

  /** The kernel lies in RAM and its guard page inside the kernel. */
  predicate Fits(l: Layout) {
    RAM_BASE <= l.kernelEnd <= RAM_END && l.guardEnd <= l.kernelEnd
  }

  const TEXT_ATTRS := Attrs(false, true, false, 0x704)
  const RODATA_ATTRS := Attrs(false, true, false, 0x0060_0000_0000_0704)
  const DATA_ATTRS := Attrs(false, false, false, 0x0060_0000_0000_0704)
  const DEVICE_ATTRS := Attrs(false, false, false, 0x0060_0000_0000_0400)

  /** The flag words the code builds, for pages and blocks, decode to these attributes. */
  lemma BootFlags()
    ensures AttrsOf(0x4 | 0x80 | 0x300 | 0x400) == TEXT_ATTRS
    ensures AttrsOf(0x4 | 0x80 | 0x300 | 0x400 | 0x0020_0000_0000_0000 | 0x0040_0000_0000_0000) == RODATA_ATTRS
    ensures AttrsOf(0x4 | 0x300 | 0x400 | 0x0020_0000_0000_0000 | 0x0040_0000_0000_0000) == DATA_ATTRS
    ensures AttrsOf(0x400 | 0x0020_0000_0000_0000 | 0x0040_0000_0000_0000) == DEVICE_ATTRS
  {
    assert 0x4 | 0x80 | 0x300 | 0x400 == 0x784 as bv64;
    assert 0x4 | 0x80 | 0x300 | 0x400 | 0x0020_0000_0000_0000 | 0x0040_0000_0000_0000 == 0x0060_0000_0000_0784 as bv64;
    assert 0x4 | 0x300 | 0x400 | 0x0020_0000_0000_0000 | 0x0040_0000_0000_0000 == 0x0060_0000_0000_0704 as bv64;
    assert 0x400 | 0x0020_0000_0000_0000 | 0x0040_0000_0000_0000 == 0x0060_0000_0000_0400 as bv64;
  }

  /** Bits 53 and 54 forbid execution at EL1 and EL0. */
  predicate ExecuteNever(a: Attrs) { a.rest & 0x0060_0000_0000_0000 == 0x0060_0000_0000_0000 }

  predicate InGuard(l: Layout, pa: nat) { l.guard <= pa < l.guardEnd }

  /** `mmu_kernel_page_attrs`; the last three section tests of the source agree with its default. */
  function PageAttrs(l: Layout, pa: nat): Option<Attrs> {
    if InGuard(l, pa) then None
    else if l.text <= pa < l.textEnd then Some(TEXT_ATTRS)
    else if l.rodata <= pa < l.rodataEnd then Some(RODATA_ATTRS)
    else Some(DATA_ATTRS)
  }

  /** The entry for the page at `pa`: itself, or nothing for a guard page. */
  function PageEntry(l: Layout, pa: nat): Desc {
    match PageAttrs(l, pa)
    case Some(a) => Full(pa, a)
    case None => Invalid
  }

  function ChunkBase(k: nat): nat { RAM_BASE + k * CHUNK }

  /** How many chunks are mapped page by page: the kernel's, and two at least. */
  function FineChunks(l: Layout): (n: nat)
    requires Fits(l)
    ensures MIN_FINE <= n <= CHUNKS && l.kernelEnd <= ChunkBase(n) && (n > MIN_FINE ==> ChunkBase(n - 1) < l.kernelEnd)
  {
    var n := (l.kernelEnd - RAM_BASE + CHUNK - 1) / CHUNK;
    if n < MIN_FINE then MIN_FINE else n
  }

  function Chunk(l: Layout, k: nat): seq<Desc> {
    seq(ENTRIES, i requires 0 <= i < ENTRIES => PageEntry(l, ChunkBase(k) + i * PAGE_SIZE))
  }

  /** The inner loop: one level-3 table. */
  method FillChunk(l: Layout, k: nat) returns (t: seq<Desc>)
    ensures t == Chunk(l, k)
  {
    t := EmptyTable();
    for i := 0 to ENTRIES
      invariant |t| == ENTRIES
      invariant forall j :: 0 <= j < i ==> t[j] == PageEntry(l, ChunkBase(k) + j * PAGE_SIZE)
      invariant forall j :: i <= j < ENTRIES ==> t[j] == Invalid
    {
      var attrs := PageAttrs(l, ChunkBase(k) + i * PAGE_SIZE);
      if attrs.Some? {
        t := t[i := Full(ChunkBase(k) + i * PAGE_SIZE, attrs.value)];
      }
    }
  }

  type Tables = map<int, seq<Desc>>

  /** Entry `j` of the level-2 table: fine below `fine`, a block below `all`, nothing beyond. */
  function L2Entry(spare: seq<int>, fine: nat, all: nat, j: nat): Desc
    requires fine <= |spare|
  {
    if j < fine then Full(spare[j], TABLE_ATTRS)
    else if j < all then Block(ChunkBase(j), DATA_ATTRS)
    else Invalid
  }

  /** The tables of a finished map. */
  ghost predicate Built(ts: Tables, l: Layout, l0: int, l1: int, l2: int, spare: seq<int>)
    requires Fits(l)
  {
    && FineChunks(l) <= |spare|
    && l0 in ts && ts[l0] == EmptyTable()[0 := Full(l1, TABLE_ATTRS)]
    && l1 in ts && ts[l1] == EmptyTable()[0 := Block(0, DEVICE_ATTRS)][1 := Full(l2, TABLE_ATTRS)]
    && l2 in ts && |ts[l2]| == ENTRIES
    && (forall j :: 0 <= j < ENTRIES ==> ts[l2][j] == L2Entry(spare, FineChunks(l), CHUNKS, j))
    && (forall k :: 0 <= k < FineChunks(l) ==> spare[k] in ts && ts[spare[k]] == Chunk(l, k))
  }

  /**
   `build_generic_boot_map`.  The three upper tables and the page allocator's answers for the
   level-3 tables, 0 for none, come from outside; no two are the same page.
   */
  method Build(l: Layout, l0: int, l1: int, l2: int, spare: seq<int>) returns (ok: bool, ts: Tables)
    requires Fits(l) && |spare| == CHUNKS
    requires forall p :: p in [l0, l1, l2] + spare && p != 0 ==> p > 0
    requires l0 != 0 && l1 != 0 && l2 != 0 ==> NoDup([l0, l1, l2]) && forall k :: 0 <= k < |spare| ==> spare[k] !in [l0, l1, l2]
    requires forall i, j :: 0 <= i < j < |spare| && spare[i] != 0 ==> spare[i] != spare[j]
    ensures ok <==> l0 != 0 && l1 != 0 && l2 != 0 && forall k :: 0 <= k < FineChunks(l) ==> spare[k] != 0
    ensures ok ==> Built(ts, l, l0, l1, l2, spare)
  {
    ts := map[];
    if l0 == 0 || l1 == 0 || l2 == 0 {
      return false, ts;
    }
    assert [l0, l1, l2][0] == l0 && [l0, l1, l2][1] == l1 && [l0, l1, l2][2] == l2;
    var upper := EmptyTable()[0 := Block(0, DEVICE_ATTRS)][1 := Full(l2, TABLE_ATTRS)];
    ts := map[l0 := EmptyTable()[0 := Full(l1, TABLE_ATTRS)], l1 := upper, l2 := EmptyTable()];
    var fine := FineChunks(l);
    for k := 0 to fine
      invariant Halfway(ts, l, l0, l1, l2, spare, k, k, upper)
      invariant forall j :: 0 <= j < k ==> spare[j] != 0
    {
      if spare[k] == 0 {
        return false, ts;
      }
      var table := FillChunk(l, k);
      ts := ts[spare[k] := table][l2 := ts[l2][k := Full(spare[k], TABLE_ATTRS)]];
    }
    for k := fine to CHUNKS
      invariant Halfway(ts, l, l0, l1, l2, spare, fine, k, upper)
    {
      ts := ts[l2 := ts[l2][k := Block(ChunkBase(k), DATA_ATTRS)]];
    }
    ok := true;
  }

  ghost predicate Halfway(ts: Tables, l: Layout, l0: int, l1: int, l2: int, spare: seq<int>, fine: nat, all: nat, upper: seq<Desc>) {
    && fine <= |spare| && fine <= all <= CHUNKS
    && l0 in ts && ts[l0] == EmptyTable()[0 := Full(l1, TABLE_ATTRS)] && l1 in ts && ts[l1] == upper
    && l2 in ts && |ts[l2]| == ENTRIES
    && (forall j :: 0 <= j < ENTRIES ==> ts[l2][j] == L2Entry(spare, fine, all, j))
    && (forall k :: 0 <= k < fine ==> spare[k] in ts && ts[spare[k]] == Chunk(l, k))
  }

  // ---------------------------------------------------------------- what the tree maps

  /** Where the walk should lead: the address itself for devices and RAM, nowhere for the guard page and beyond. */
  function Expected(l: Layout, va: nat): Option<int> {
    if va < GIB then Some(va)
    else if va < RAM_END && !InGuard(l, va - va % PAGE_SIZE) then Some(va)
    else None
  }

  lemma Indices(va: nat)
    requires va < 0x1_0000_0000_0000
    ensures PathOf(va)[0] == va / 0x80_0000_0000
    ensures va < 0x80_0000_0000 ==> PathOf(va)[1] == va / 0x4000_0000
  {
  }

  /** An address of the second gigabyte, taken apart. */
  lemma InRam(va: nat)
    requires RAM_BASE <= va < 2 * GIB
    ensures PathOf(va)[0] == 0 && PathOf(va)[1] == 1
    ensures var j := PathOf(va)[2]; ChunkBase(j) <= va < ChunkBase(j) + CHUNK
    ensures ChunkBase(PathOf(va)[2]) + PathOf(va)[3] * PAGE_SIZE == va - va % PAGE_SIZE
    ensures ChunkBase(PathOf(va)[2]) - ChunkBase(PathOf(va)[2]) % CHUNK + va % CHUNK == va
  {
    SplitRam(va - 0x4000_0000);
    assert va / 0x20_0000 == 512 + (va - 0x4000_0000) / 0x20_0000;
    assert va / 0x1000 == 0x4_0000 + (va - 0x4000_0000) / 0x1000;
  }

  lemma SplitRam(d: nat)
    requires d < 0x4000_0000
    ensures d / 0x20_0000 < 512 && d == d / 0x20_0000 * 0x20_0000 + d / 0x1000 % 512 * 0x1000 + d % 0x1000
    ensures d == d / 0x20_0000 * 0x20_0000 + d % 0x20_0000
  {
    assert d / 0x1000 / 512 == d / 0x20_0000;
  }

  /** A finished map is the identity on the device gigabyte and on all of RAM but the guard page, and maps nothing else. */
  lemma IdentityMap(ts: Tables, l: Layout, l0: int, l1: int, l2: int, spare: seq<int>, va: nat)
    requires Fits(l) && Built(ts, l, l0, l1, l2, spare) && va < 0x1_0000_0000_0000
    ensures DebugWalk(ts, l0, va) == Expected(l, va)
  {
    Indices(va);
    if RAM_BASE <= va < 2 * GIB {
      InRam(va);
      RamWalk(ts, l, l0, l1, l2, spare, va);
    }
  }

  lemma RamWalk(ts: Tables, l: Layout, l0: int, l1: int, l2: int, spare: seq<int>, va: nat)
    requires Fits(l) && Built(ts, l, l0, l1, l2, spare) && RAM_BASE <= va < 2 * GIB
    requires PathOf(va)[0] == 0 && PathOf(va)[1] == 1
    requires var j := PathOf(va)[2]; ChunkBase(j) <= va < ChunkBase(j) + CHUNK
    requires ChunkBase(PathOf(va)[2]) + PathOf(va)[3] * PAGE_SIZE == va - va % PAGE_SIZE
    requires ChunkBase(PathOf(va)[2]) - ChunkBase(PathOf(va)[2]) % CHUNK + va % CHUNK == va
    ensures DebugWalk(ts, l0, va) == Expected(l, va)
  {
    var j, i := PathOf(va)[2], PathOf(va)[3];
    assert ts[l2][j] == L2Entry(spare, FineChunks(l), CHUNKS, j);
    if j < FineChunks(l) {
      assert ts[spare[j]][i] == PageEntry(l, ChunkBase(j) + i * PAGE_SIZE);
    }
  }

  lemma AttrsExecute()
    ensures !ExecuteNever(TEXT_ATTRS) && ExecuteNever(RODATA_ATTRS) && ExecuteNever(DATA_ATTRS) && ExecuteNever(DEVICE_ATTRS)
  {
  }

  /** No leaf of the tree is both writable and executable, and only text is executable at all. */
  lemma WriteXorExecute(ts: Tables, l: Layout, l0: int, l1: int, l2: int, spare: seq<int>)
    requires Fits(l) && Built(ts, l, l0, l1, l2, spare)
    ensures ts[l1][0].Block? && ExecuteNever(ts[l1][0].attrs)
    ensures forall j :: 0 <= j < ENTRIES && ts[l2][j].Block? ==> ExecuteNever(ts[l2][j].attrs)
    ensures forall k, i :: 0 <= k < FineChunks(l) && 0 <= i < ENTRIES && ts[spare[k]][i].Full? ==>
      var a := ts[spare[k]][i].attrs;
      (a.ro || ExecuteNever(a)) && (!ExecuteNever(a) ==> l.text <= ts[spare[k]][i].pa < l.textEnd)
  {
    AttrsExecute();
    forall k, i | 0 <= k < FineChunks(l) && 0 <= i < ENTRIES && ts[spare[k]][i].Full?
      ensures ts[spare[k]][i].attrs.ro || ExecuteNever(ts[spare[k]][i].attrs)
      ensures !ExecuteNever(ts[spare[k]][i].attrs) ==> l.text <= ts[spare[k]][i].pa < l.textEnd
    {
      assert ts[spare[k]] == Chunk(l, k);
      assert ts[spare[k]][i] == PageEntry(l, ChunkBase(k) + i * PAGE_SIZE);
    }
  }

  /** The entry a walk ends at: a block, a page, or none. */
  function LeafAt(ts: Tables, root: int, va: nat): Desc {
    var p := PathOf(va);
    var l0 := EntryIn(ts, root, p[0]);
    if !l0.Full? then l0 else
    var l1 := EntryIn(ts, l0.pa, p[1]);
    if !l1.Full? then l1 else
    var l2 := EntryIn(ts, l1.pa, p[2]);
    if !l2.Full? then l2 else EntryIn(ts, l2.pa, p[3])
  }

  /** Bit 53 or 54 is set. */
  predicate KernelMayNot(a: Attrs) { a.rest & 0x0020_0000_0000_0000 != 0 }

  predicate UserMayNot(a: Attrs) { a.rest & 0x0040_0000_0000_0000 != 0 }

  /** A leaf the kernel alone may read, write if `write` and execute if `execute`; memory index 1 is normal, 0 is device memory. */
  ghost predicate LeafAs(e: Desc, write: bool, execute: bool, device: bool) {
    && e != Invalid && !e.attrs.el0 && !e.attrs.cow && (e.attrs.ro <==> !write)
    && (KernelMayNot(e.attrs) <==> !execute) && (UserMayNot(e.attrs) <==> !execute)
    && (e.attrs.rest & 0x3c == if device then 0 else 4)
  }

  lemma AttrBits()
    ensures LeafAs(Full(0, TEXT_ATTRS), false, true, false) && LeafAs(Full(0, RODATA_ATTRS), false, false, false)
    ensures LeafAs(Full(0, DATA_ATTRS), true, false, false) && LeafAs(Full(0, DEVICE_ATTRS), true, false, true)
  {
  }

  /** The rights at each address of the map: text is executed and not written, read-only data neither, everything else is written. */
  lemma ExactRights(ts: Tables, l: Layout, l0: int, l1: int, l2: int, spare: seq<int>, va: nat)
    requires Fits(l) && Built(ts, l, l0, l1, l2, spare) && va < 0x1_0000_0000_0000
    ensures var e, page := LeafAt(ts, l0, va), va - va % 4096;
      if va < 0x4000_0000 then LeafAs(e, true, false, true)
      else if va >= 0x4800_0000 || l.guard <= page < l.guardEnd then e == Invalid
      else if page < ChunkBase(FineChunks(l)) && l.text <= page < l.textEnd then LeafAs(e, false, true, false)
      else if page < ChunkBase(FineChunks(l)) && l.rodata <= page < l.rodataEnd then LeafAs(e, false, false, false)
      else LeafAs(e, true, false, false)
  {
    AttrBits();
    Indices(va);
    if RAM_BASE <= va < 2 * GIB {
      InRam(va);
      RamLeaf(ts, l, l0, l1, l2, spare, va);
    }
  }

  lemma RamLeaf(ts: Tables, l: Layout, l0: int, l1: int, l2: int, spare: seq<int>, va: nat)
    requires Fits(l) && Built(ts, l, l0, l1, l2, spare) && RAM_BASE <= va < 2 * GIB
    requires PathOf(va)[0] == 0 && PathOf(va)[1] == 1
    requires var j := PathOf(va)[2]; ChunkBase(j) <= va < ChunkBase(j) + CHUNK
    requires ChunkBase(PathOf(va)[2]) + PathOf(va)[3] * PAGE_SIZE == va - va % PAGE_SIZE
    ensures LeafAt(ts, l0, va) ==
      if va < ChunkBase(FineChunks(l)) then PageEntry(l, va - va % PAGE_SIZE)
      else if va < RAM_END then Block(ChunkBase(PathOf(va)[2]), DATA_ATTRS) else Invalid
  {
    var j, i := PathOf(va)[2], PathOf(va)[3];
    assert ts[l2][j] == L2Entry(spare, FineChunks(l), CHUNKS, j);
    if j < FineChunks(l) {
      assert ts[spare[j]][i] == PageEntry(l, ChunkBase(j) + i * PAGE_SIZE);
    }
  }

  const KERNEL_VA_OFFSET: nat := 0xFFFF_0000_0000_0000

  /** The kernel's tree, walked at the high address of a physical one, leads to that physical address. */
  lemma HighHalf(ts: Tables, l: Layout, l0: int, l1: int, l2: int, spare: seq<int>, pa: nat)
    requires Fits(l) && Built(ts, l, l0, l1, l2, spare) && pa < 0x1_0000_0000_0000
    ensures DebugWalk(ts, l0, pa + KERNEL_VA_OFFSET) == Expected(l, pa)
  {
    IdentityMap(ts, l, l0, l1, l2, spare, pa);
    UserCopy.SpanPath(pa + KERNEL_VA_OFFSET);
    SameLow(pa);
  }

  lemma SameLow(pa: nat)
    requires pa < 0x1_0000_0000_0000
    ensures (pa + 0xFFFF_0000_0000_0000) % 0x1_0000_0000_0000 == pa
    ensures (pa + 0xFFFF_0000_0000_0000) % 0x4000_0000 == pa % 0x4000_0000
    ensures (pa + 0xFFFF_0000_0000_0000) % 0x20_0000 == pa % 0x20_0000
    ensures (pa + 0xFFFF_0000_0000_0000) % 4096 == pa % 4096
  {
  }
}
