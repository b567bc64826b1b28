/**
 The regions of a process and what a translation fault inside one loads
 (`struct vm_region`, the lookup and the fill of the page-fault handler).
 */
module Region {
  import opened Descriptor
  import opened AddressSpace
  import opened Wrappers

  datatype Kind = Anon | Elf | Heap

  /** A file in kernel memory: its bytes, and what lies at other distances from its start, modulo 2^64. */
  datatype File = File(bytes: Bytes, stray: nat -> Byte) {
    function At(x: nat): Byte { if x < |bytes| then bytes[x] else stray(x) }
  }

  /** `image` is `None` for the null pointer. */
  datatype Region = Region(start: nat, end: nat, kind: Kind, attrs: Attrs,
                           image: Option<File>, offset: nat, fileSize: nat)

  /** The part of the image the region may read lies inside the image. */
  predicate InBounds(r: Region) {
    r.kind.Elf? && r.image.Some? ==> r.offset + r.fileSize <= |r.image.value.bytes|
  }

  /** Offset of a page in its region, in 64-bit arithmetic. */
  function PageOffset(r: Region, pageVa: nat): nat { (pageVa - r.start) % WORD }

  /** Byte `j` of the page at `pageVa`: an image byte inside the file part, zero elsewhere. */
  function PageByte(r: Region, pageVa: nat, j: nat): Byte {
    if r.kind.Elf? && r.image.Some? && PageOffset(r, pageVa) + j < r.fileSize
    then r.image.value.At((r.offset + PageOffset(r, pageVa) + j) % WORD)
    else 0
  }

  function PageContent(r: Region, pageVa: nat): (b: Bytes)
    ensures |b| == PAGE_SIZE
  {
    seq(PAGE_SIZE, j requires 0 <= j < PAGE_SIZE => PageByte(r, pageVa, j))
  }

  /** Some byte a fault at `va` copies lies outside the image. */
  ghost predicate Strays(r: Region, va: nat) {
    && r.kind.Elf? && r.image.Some?
    && exists j :: 0 <= j < PAGE_SIZE && StraysAt(r, PageOf(va), j)
  }

  predicate StraysAt(r: Region, pageVa: nat, j: nat)
    requires r.image.Some?
  {
    PageOffset(r, pageVa) + j < r.fileSize && (r.offset + PageOffset(r, pageVa) + j) % WORD >= |r.image.value.bytes|
  }

  /** Zero the page, then copy the file part, which only an ELF region has. */
  method LoadPage(r: Region, pageVa: nat) returns (b: Bytes)
    ensures b == PageContent(r, pageVa) && |b| == 4096
    ensures forall j :: 0 <= j < 4096 && (!r.kind.Elf? || r.image.None?) ==> b[j] == 0
    ensures forall j :: 0 <= j < 4096 && r.kind.Elf? && r.image.Some? ==>
      var at := (pageVa - r.start) % 0x1_0000_0000_0000_0000 + j;
      b[j] == if at < r.fileSize then r.image.value.At((r.offset + at) % 0x1_0000_0000_0000_0000) else 0
  {
    var dst := new Byte[PAGE_SIZE];
    for j := 0 to PAGE_SIZE
      invariant forall k :: 0 <= k < j ==> dst[k] == 0
    {
      dst[j] := 0;
    }
    if r.kind.Elf? {
      var off := PageOffset(r, pageVa);
      if r.image.Some? && off < r.fileSize {
        var len := r.fileSize - off;
        if len > PAGE_SIZE {
          len := PAGE_SIZE;
        }
        for j := 0 to len
          invariant forall k :: 0 <= k < j ==> dst[k] == r.image.value.At((r.offset + off + k) % WORD)
          invariant forall k :: j <= k < PAGE_SIZE ==> dst[k] == 0
        {
          dst[j] := r.image.value.At((r.offset + off + j) % WORD);
        }
      }
    }
    b := dst[..];
  }

  predicate Covers(r: Region, va: nat) { r.start <= va < r.end }

  /** The region that decides a fault: the most recently added one that covers the address. */
  function Deciding(regions: seq<Region>, va: nat): (r: Option<Region>)
    ensures r.Some? ==> r.value in regions && Covers(r.value, va)
    ensures r.None? <==> forall k :: 0 <= k < |regions| ==> !Covers(regions[k], va)
  {
    if regions == [] then None
    else
      var n := |regions| - 1;
      assert regions == regions[..n] + [regions[n]];
      if Covers(regions[n], va) then Some(regions[n])
      else Deciding(regions[..n], va)
  }

  method FindRegion(regions: seq<Region>, va: nat) returns (r: Option<Region>)
    ensures r == Deciding(regions, va)
  {
    var i := |regions|;
    assert regions[..i] == regions;
    while i > 0
      invariant 0 <= i <= |regions|
      invariant Deciding(regions, va) == Deciding(regions[..i], va)
    {
      i := i - 1;
      assert regions[..i + 1][..i] == regions[..i];
      if regions[i].start <= va && va < regions[i].end {
        return Some(regions[i]);
      }
    }
    r := None;
  }

  const USER_HEAP_BASE: nat := 0x1000_0000
  const USER_STACK_TOP: nat := 0x8000_0000

  function PageOf(va: nat): (p: nat)
    ensures p <= va < p + PAGE_SIZE
  {
    va - va % PAGE_SIZE
  }

  datatype Fill = Fill(bytes: Bytes, attrs: Attrs)

  /**
   What a translation fault at `va` gives: the deciding region's page; outside every region
   a zero page below the break or in the last megabyte of stack; otherwise nothing.
   */
  function FaultFill(regions: seq<Region>, brk: nat, va: nat): (f: Option<Fill>)
    ensures f.Some? ==> |f.value.bytes| == PAGE_SIZE
  {
    match Deciding(regions, va)
    case Some(r) => Some(Fill(PageContent(r, PageOf(va)), r.attrs))
    case None =>
      if USER_HEAP_BASE <= va < brk || USER_STACK_TOP - 0x10_0000 <= va < USER_STACK_TOP
      then Some(Fill(ZeroPage(), USER_ATTRS))
      else None
  }

  function ZeroPage(): (b: Bytes)
    ensures |b| == PAGE_SIZE
  {
    seq(PAGE_SIZE, _ => 0)
  }

  // ---------------------------------------------------------------- what a first touch finds

  lemma {:induction false} LastDecides(regions: seq<Region>, va: nat, k: nat)
    requires k < |regions| && Covers(regions[k], va) && forall j :: k < j < |regions| ==> !Covers(regions[j], va)
    ensures Deciding(regions, va) == Some(regions[k])
    decreases |regions|
  {
    var n := |regions| - 1;
    if k < n {
      LastDecides(regions[..n], va, k);
    }
  }

  /** Bits 53 and 54 of an entry forbid execution to the kernel and to the user. */
  predicate KernelNever(a: Attrs) { a.rest & 0x0020_0000_0000_0000 != 0 }

  predicate UserNever(a: Attrs) { a.rest & 0x0040_0000_0000_0000 != 0 }

  /** Zeros the user may read and write and nobody may execute. */
  ghost predicate ZeroFilled(f: Fill) {
    && |f.bytes| == 4096 && (forall j :: 0 <= j < 4096 ==> f.bytes[j] == 0)
    && f.attrs.el0 && !f.attrs.ro && !f.attrs.cow && KernelNever(f.attrs) && UserNever(f.attrs)
  }

  lemma UserBits()
    ensures USER_ATTRS.el0 && !USER_ATTRS.ro && !USER_ATTRS.cow && KernelNever(USER_ATTRS) && UserNever(USER_ATTRS)
  {
  }

  /** The region added last of those that hold the address gives the page and its flags; its bytes are zero unless it is an ELF region. */
  lemma RegionGives(regions: seq<Region>, brk: nat, va: nat, k: nat)
    requires k < |regions| && regions[k].start <= va < regions[k].end
    requires forall j :: k < j < |regions| ==> !(regions[j].start <= va < regions[j].end)
    ensures FaultFill(regions, brk, va).Some?
    ensures var f := FaultFill(regions, brk, va).value;
      && f.attrs == regions[k].attrs && |f.bytes| == 4096
      && (regions[k].kind.Anon? || regions[k].kind.Heap? ==> forall j :: 0 <= j < 4096 ==> f.bytes[j] == 0)
  {
    LastDecides(regions, va, k);
  }

  /** Outside all regions: blank pages below the break and in the last megabyte of stack, and nothing elsewhere. */
  lemma OutsideGives(regions: seq<Region>, brk: nat, va: nat)
    requires forall j :: 0 <= j < |regions| ==> !(regions[j].start <= va < regions[j].end)
    ensures FaultFill(regions, brk, va).Some? <==> 0x1000_0000 <= va < brk || 0x7ff0_0000 <= va < 0x8000_0000
    ensures FaultFill(regions, brk, va).Some? ==> ZeroFilled(FaultFill(regions, brk, va).value)
  {
    UserBits();
    assert forall j :: 0 <= j < |regions| ==> !Covers(regions[j], va);
  }
}
