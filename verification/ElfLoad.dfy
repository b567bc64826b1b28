/**
 Lazy loading of ELF images (`process.c`): each PT_LOAD segment becomes a region, the stack
 and the heap follow, and pages are filled on first touch.  Addresses, offsets and sizes are
 64-bit words, and sums wrap as the code's do.  The bytes a process finds are those an eager
 loader would have put there.
 */
module ElfLoad {
  import opened Wrappers
  import opened Descriptor
  import opened AddressSpace
  import opened Region

  const USER_CODE_BASE: nat := 0x1000
  const USER_HEAP_LIMIT: nat := 0x7000_0000
  const STACK_BASE: nat := 0x7ff0_0000
  const REGIONS_MAX: nat := 16
  const OBJECTS_MAX: nat := 8
  const STRIDE: nat := 0x1_0000

  /** A program header. */
  datatype Phdr = Phdr(load: bool, vaddr: Word, offset: Word, filesz: Word, memsz: Word, writable: bool, executable: bool)

  /** An ELF file: its program headers, whether it is position independent, its entry point. */
  datatype Object = Object(file: File, phdrs: seq<Phdr>, dyn: bool, entry: Word)

  /** How far an address lies into its page. */
  function Lead(v: nat): (d: nat)
    ensures d == v - AlignDown(v) && d < PAGE_SIZE
  {
    v % 4096
  }

  /** `process_align_up` to a page. */
  function Up(v: Word): Word { AlignDown(Plus(v, 4095)) }

  /** Rounding up wraps at most once. */
  lemma UpWraps(v: Word)
    ensures Up(v) == if AlignUp(v) < WORD then AlignUp(v) else 0
    ensures AlignUp(v) <= WORD
  {
  }

  /** `process_elf_page_flags`. */
  function SegmentAttrs(p: Phdr): Attrs {
    if p.writable then USER_ATTRS
    else Attrs(true, true, false, if p.executable then 0x0020_0000_0000_0704 else 0x0060_0000_0000_0704)
  }

  /** The flag word the code builds, branch by branch, decodes to these attributes. */
  lemma SegmentFlags(p: Phdr)
    ensures AttrsOf(0x4 | 0x400 | 0x300 |
      if p.writable then 0x40 | 0x0040_0000_0000_0000 | 0x0020_0000_0000_0000
      else if p.executable then 0xc0 | 0x0020_0000_0000_0000
      else 0xc0 | 0x0040_0000_0000_0000 | 0x0020_0000_0000_0000) == SegmentAttrs(p)
  {
    if p.writable {
      UserFlags();
    }
  }

  /** The rights of a page of the segment: the user's, to write and to execute as its header says, and never the kernel's to execute. */
  ghost predicate RightsAs(a: Attrs, p: Phdr) {
    && a.el0 && !a.cow && (a.ro <==> !p.writable) && KernelNever(a)
    && (!(p.writable && p.executable) ==> (UserNever(a) <==> !p.executable)) && (a.ro || UserNever(a))
  }

  lemma SegmentRights(p: Phdr)
    ensures RightsAs(SegmentAttrs(p), p)
  {
  }

  predicate Skipped(p: Phdr) { !p.load || p.memsz == 0 }

  /** What `process_elf_load_bounds` demands of a segment. */
  predicate Bounded(p: Phdr) { Skipped(p) || (p.filesz <= p.memsz && p.vaddr + p.memsz < WORD) }

  /** The first page of a segment, the end of its last, and where its first byte goes. */
  function First(p: Phdr, bias: Word): Word { Plus(bias, AlignDown(p.vaddr)) }

  function Last(p: Phdr, bias: Word): Word { Plus(bias, Up(Plus(p.vaddr, p.memsz))) }

  function Where(p: Phdr, bias: Word): Word { Plus(bias, p.vaddr) }

  /** What `process_map_elf_segment` demands of a segment. */
  predicate Accepted(f: File, p: Phdr, bias: Word) {
    && !(p.writable && p.executable) && p.filesz <= p.memsz && Plus(p.offset, p.filesz) <= |f.bytes|
    && USER_CODE_BASE <= First(p, bias) && Last(p, bias) <= USER_HEAP_LIMIT && First(p, bias) < Last(p, bias)
  }

  function SegmentRegion(f: File, p: Phdr, bias: Word): Region {
    Region(First(p, bias), Last(p, bias), Elf, SegmentAttrs(p), Some(f),
           Minus(p.offset, Lead(p.vaddr)), Plus(p.filesz, Lead(p.vaddr)))
  }

  /** A segment that takes up memory and that both functions let through. */
  predicate LetThrough(f: File, p: Phdr, bias: Word) {
    !Skipped(p) && Bounded(p) && Accepted(f, p, bias)
  }

  /** `LetThrough`, sealed: proofs about good segments use `InOnePiece` and not the wrapping sums. */
  ghost predicate Sealed(n: nat, f: File, p: Phdr, bias: Word)
    decreases n
  {
    if n == 0 then LetThrough(f, p, bias) else Sealed(n - 1, f, p, bias)
  }

  ghost predicate Good(f: File, p: Phdr, bias: Word) {
    p.memsz > 0 && p.filesz <= p.memsz && p.vaddr + p.memsz < WORD && Sealed(|f.bytes|, f, p, bias)
  }

  lemma {:induction false} Unseal(n: nat, f: File, p: Phdr, bias: Word)
    ensures Sealed(n, f, p, bias) <==> LetThrough(f, p, bias)
  {
    if n > 0 {
      Unseal(n - 1, f, p, bias);
    }
  }

  lemma GoodMeans(f: File, p: Phdr, bias: Word)
    ensures Good(f, p, bias) <==> LetThrough(f, p, bias)
  {
    Unseal(|f.bytes|, f, p, bias);
  }

  /** A good segment lies in one piece below the heap limit, whatever wrapped on the way. */
  lemma InOnePiece(f: File, p: Phdr, bias: Word)
    requires Good(f, p, bias)
    ensures Last(p, bias) - First(p, bias) == AlignUp(p.vaddr + p.memsz) - AlignDown(p.vaddr)
    ensures USER_CODE_BASE <= First(p, bias) < Last(p, bias) <= USER_HEAP_LIMIT
    ensures Where(p, bias) == First(p, bias) + Lead(p.vaddr) && Where(p, bias) + p.memsz <= Last(p, bias)
    ensures p.filesz + Lead(p.vaddr) <= Last(p, bias) - First(p, bias)
    ensures First(p, bias) % 4096 == bias % 4096
  {
    GoodMeans(f, p, bias);
    UpWraps(p.vaddr + p.memsz);
    LeadOf(bias, AlignDown(p.vaddr));
  }

  lemma LeadOf(bias: Word, a: Word)
    requires a % 4096 == 0
    ensures Plus(bias, a) % 4096 == bias % 4096
  {
  }

  // ---------------------------------------------------------------- staying inside the image

  /** File offset and address agree within a page, as the System V gABI asks. */
  predicate Congruent(p: Phdr) { p.offset % PAGE_SIZE == p.vaddr % PAGE_SIZE }

  /** The file part lies in the image and reaches back to the start of its first page. */
  predicate Inside(f: File, p: Phdr) {
    Lead(p.vaddr) <= p.offset && p.offset + p.filesz <= |f.bytes|
  }

  /**
   Of the segments the code lets through, those whose region stays inside the image are
   exactly those whose file part, added up without wrapping, does and whose file offset
   reaches back to the start of the first page.
   */
  lemma BoundsExact(f: File, p: Phdr, bias: Word)
    requires Good(f, p, bias) && |f.bytes| < WORD
    ensures InBounds(SegmentRegion(f, p, bias)) <==> Inside(f, p)
    ensures Congruent(p) ==> Lead(p.vaddr) <= p.offset
  {
    Short(f, p, bias);
    RegionBounds(f, p, bias);
  }

  lemma Short(f: File, p: Phdr, bias: Word)
    requires Good(f, p, bias)
    ensures p.filesz + Lead(p.vaddr) < 0x7000_0000
  {
    InOnePiece(f, p, bias);
  }

  lemma RegionBounds(f: File, p: Phdr, bias: Word)
    requires p.filesz + Lead(p.vaddr) < 0x7000_0000 && |f.bytes| < WORD
    ensures InBounds(SegmentRegion(f, p, bias)) <==> Inside(f, p)
    ensures Congruent(p) ==> Lead(p.vaddr) <= p.offset
  {
  }

  /** How far into a region its first page starts. */
  function Gap(start: nat): nat { if start % 4096 == 0 then 0 else 4096 - start % 4096 }

  /** What is left of the file part past the gap lies in the image. */
  predicate ReadsInside(r: Region, f: File) {
    r.fileSize <= Gap(r.start) || (r.offset + Gap(r.start)) % WORD + (r.fileSize - Gap(r.start)) <= |f.bytes|
  }

  /**
   And no fault copies a byte from outside exactly if the file part does, less what lies
   before the first page that starts in the region; at a page-aligned bias that is all of it.
   */
  lemma FaultsStayInside(f: File, p: Phdr, bias: Word)
    requires Good(f, p, bias) && |f.bytes| < WORD
    ensures var r := SegmentRegion(f, p, bias);
      && ((forall va :: Covers(r, va) ==> !Strays(r, va)) <==> ReadsInside(r, f))
      && (bias % PAGE_SIZE == 0 ==> (ReadsInside(r, f) <==> Inside(f, p)))
  {
    var r := SegmentRegion(f, p, bias);
    InOnePiece(f, p, bias);
    RegionStrays(r, f);
    if bias % PAGE_SIZE == 0 {
      AlignedReads(f, p, bias);
    }
  }

  lemma AlignedReads(f: File, p: Phdr, bias: Word)
    requires Good(f, p, bias) && |f.bytes| < WORD && bias % PAGE_SIZE == 0
    ensures ReadsInside(SegmentRegion(f, p, bias), f) <==> Inside(f, p)
  {
    InOnePiece(f, p, bias);
    GoodMeans(f, p, bias);
    var r := SegmentRegion(f, p, bias);
    NoGap(r.start);
    PlainReads(r, f);
    BoundsExact(f, p, bias);
  }

  lemma NoGap(start: nat)
    requires start % 4096 == 0
    ensures Gap(start) == 0
  {
  }

  /** Without a gap the region reads inside exactly if it is in bounds or reads nothing. */
  lemma PlainReads(r: Region, f: File)
    requires Gap(r.start) == 0 && r.offset < 0x1_0000_0000_0000_0000 && r.kind.Elf? && r.image == Some(f)
    ensures ReadsInside(r, f) <==> r.fileSize == 0 || InBounds(r)
  {
  }

  /** A region reads outside its image exactly if it is out of bounds past the gap. */
  lemma RegionStrays(r: Region, f: File)
    requires r.kind.Elf? && r.image == Some(f) && |f.bytes| < WORD && r.offset < WORD
    requires r.fileSize <= r.end - r.start && r.end < WORD - PAGE_SIZE
    ensures (forall va :: Covers(r, va) ==> !Strays(r, va)) <==> ReadsInside(r, f)
  {
    var g := Gap(r.start);
    if ReadsInside(r, f) {
      forall va | Covers(r, va) ensures !Strays(r, va) {
        forall j | 0 <= j < PAGE_SIZE ensures !StraysAt(r, PageOf(va), j) {
          PageInRegion(r.start, va);
          if r.start <= PageOf(va) {
            NoWrap(r.offset, g, PageOffset(r, PageOf(va)) + j, r.fileSize, |f.bytes|);
          }
        }
      }
    } else {
      StraysThere(r, f);
    }
  }

  lemma StraysThere(r: Region, f: File)
    requires r.kind.Elf? && r.image == Some(f) && |f.bytes| < WORD && r.offset < WORD
    requires r.fileSize <= r.end - r.start && r.end < WORD - PAGE_SIZE && !ReadsInside(r, f)
    ensures exists va :: Covers(r, va) && Strays(r, va)
  {
    var g := Gap(r.start);
    var base := (r.offset + g) % WORD;
    var k := if base >= |f.bytes| then g else g + (|f.bytes| - base);
    var va := r.start + k;
    SamePage(r.start, va);
    NoWrapHere(r.offset, g, k, |f.bytes|);
    assert StraysAt(r, PageOf(va), va % PAGE_SIZE);
    assert Strays(r, va);
  }

  lemma NoWrap(offset: nat, g: nat, k: nat, size: nat, bytes: nat)
    requires g <= k && bytes < 0x1_0000_0000_0000_0000
    requires size <= g || (offset + g) % 0x1_0000_0000_0000_0000 + (size - g) <= bytes
    ensures k < size ==> (offset + k) % 0x1_0000_0000_0000_0000 < bytes
  {
    if k < size {
      Ahead(offset + g, k - g);
    }
  }

  /** Below 2^64 a distance adds to the remainder. */
  lemma Ahead(a: nat, d: nat)
    requires a % 0x1_0000_0000_0000_0000 + d < 0x1_0000_0000_0000_0000
    ensures (a + d) % 0x1_0000_0000_0000_0000 == a % 0x1_0000_0000_0000_0000 + d
  {
    var q := a / 0x1_0000_0000_0000_0000;
    assert a + d == q * 0x1_0000_0000_0000_0000 + (a % 0x1_0000_0000_0000_0000 + d);
  }

  lemma NoWrapHere(offset: nat, g: nat, k: nat, bytes: nat)
    requires bytes < 0x1_0000_0000_0000_0000
    requires var base := (offset + g) % 0x1_0000_0000_0000_0000; k == if base >= bytes then g else g + (bytes - base)
    ensures (offset + k) % 0x1_0000_0000_0000_0000 >= bytes
  {
    Ahead(offset + g, k - g);
  }

  /** A page that starts in the region starts past the gap; one that does not is out of the file part's reach. */
  lemma PageInRegion(start: nat, va: nat)
    requires start <= va < 0x1_0000_0000_0000_0000
    ensures if start <= PageOf(va) then (PageOf(va) - start) % 0x1_0000_0000_0000_0000 >= Gap(start)
            else (PageOf(va) - start) % 0x1_0000_0000_0000_0000 >= 0x1_0000_0000_0000_0000 - 4096
  {
    if start > PageOf(va) {
      assert PageOf(va) - start >= -4096;
    }
  }

  /** The page of an address past the gap lies in the region. */
  lemma SamePage(start: nat, va: nat)
    requires start + Gap(start) <= va < 0x1_0000_0000_0000_0000
    ensures start <= PageOf(va) && (PageOf(va) - start) % 0x1_0000_0000_0000_0000 + va % 4096 == va - start
  {
  }

  /** One way out: a file offset so high that offset and size add up to zero. */
  lemma WrappedSumStrays(f: File)
    requires 0 < |f.bytes| < WORD - PAGE_SIZE
    ensures var p := Phdr(true, 0x1_0000, 0xffff_ffff_ffff_f000, 0x1000, 0x1000, true, false);
      Good(f, p, 0) && Congruent(p) && Lead(p.vaddr) <= p.offset && !InBounds(SegmentRegion(f, p, 0))
  {
    var p := Phdr(true, 0x1_0000, 0xffff_ffff_ffff_f000, 0x1000, 0x1000, true, false);
    GoodMeans(f, p, 0);
    BoundsExact(f, p, 0);
  }

  /** The other: an address further into its page than the file offset into the file. */
  lemma ShortOffsetStrays(f: File)
    requires 0x110 <= |f.bytes| < WORD
    ensures var p := Phdr(true, 0x1_0800, 0x100, 16, 16, true, false);
      Good(f, p, 0) && p.offset + p.filesz <= |f.bytes| && !InBounds(SegmentRegion(f, p, 0))
  {
    var p := Phdr(true, 0x1_0800, 0x100, 16, 16, true, false);
    GoodMeans(f, p, 0);
    BoundsExact(f, p, 0);
  }

  // ---------------------------------------------------------------- what a fault brings in

  /** The byte an eager loader puts at `va`. */
  function EagerByte(f: File, p: Phdr, bias: Word, va: nat): Byte
    requires Where(p, bias) <= va
  {
    var rel := va - Where(p, bias);
    if rel < p.filesz then f.At((p.offset + rel) % WORD) else 0
  }

  /** `va` is an address of the segment. */
  predicate Holds(p: Phdr, bias: Word, va: nat) { Where(p, bias) <= va < Where(p, bias) + p.memsz }

  /**
   A fault brings in the eager loader's byte wherever the page starts inside the region;
   in a page that starts before it, which needs a bias that is not page aligned, zero.
   */
  lemma SegmentByte(f: File, p: Phdr, bias: Word, va: nat)
    requires Good(f, p, bias) && Holds(p, bias, va)
    ensures var r := SegmentRegion(f, p, bias);
      && Covers(r, va)
      && PageContent(r, PageOf(va))[va % PAGE_SIZE] == (if r.start <= PageOf(va) then EagerByte(f, p, bias, va) else 0)
      && (bias % PAGE_SIZE == 0 ==> r.start <= PageOf(va))
  {
    InOnePiece(f, p, bias);
    var r := SegmentRegion(f, p, bias);
    var rel := va - Where(p, bias);
    assert r.fileSize == p.filesz + Lead(p.vaddr);
    if r.start <= PageOf(va) {
      assert PageOffset(r, PageOf(va)) + va % PAGE_SIZE == rel + Lead(p.vaddr);
      SameIndex(p.offset, Lead(p.vaddr), rel);
    } else {
      assert PageOffset(r, PageOf(va)) == WORD + PageOf(va) - r.start;
    }
    if bias % PAGE_SIZE == 0 {
      SamePage(r.start, va);
    }
  }

  /** No byte of a segment is lost to such a page exactly if bias and address together pass a page boundary, or the bias is page aligned. */
  lemma FrontKept(f: File, p: Phdr, bias: Word)
    requires Good(f, p, bias)
    ensures (forall va :: Holds(p, bias, va) ==> First(p, bias) <= PageOf(va)) <==>
      bias % PAGE_SIZE == 0 || bias % PAGE_SIZE + Lead(p.vaddr) >= PAGE_SIZE
  {
    InOnePiece(f, p, bias);
    var va := Where(p, bias);
    FrontPage(First(p, bias), Lead(p.vaddr));
    assert Holds(p, bias, va);
    forall x | Holds(p, bias, x) && First(p, bias) <= PageOf(va) ensures First(p, bias) <= PageOf(x) {
      PagesAscend(va, x);
    }
  }

  lemma FrontPage(start: nat, lead: nat)
    requires lead < 4096
    ensures start <= PageOf(start + lead) <==> start % 4096 == 0 || start % 4096 + lead >= 4096
  {
  }

  lemma PagesAscend(a: nat, b: nat)
    requires a <= b
    ensures PageOf(a) <= PageOf(b)
  {
  }

  lemma SameIndex(offset: Word, d: Word, rel: nat)
    ensures (Minus(offset, d) + (rel + d)) % 0x1_0000_0000_0000_0000 == (offset + rel) % 0x1_0000_0000_0000_0000
  {
    if offset < d {
      assert Minus(offset, d) + (rel + d) == (offset + rel) + 0x1_0000_0000_0000_0000;
    }
  }

  // ---------------------------------------------------------------- the code

  /** A segment of some file at some load bias. */
  datatype Piece = Piece(file: File, p: Phdr, bias: Word)

  ghost function RegionsOf(pieces: seq<Piece>): seq<Region> {
    seq(|pieces|, i requires 0 <= i < |pieces| => SegmentRegion(pieces[i].file, pieces[i].p, pieces[i].bias))
  }

  /** The segments of one file that take up memory, in order. */
  ghost function PiecesOf(f: File, phdrs: seq<Phdr>, bias: Word): seq<Piece> {
    if phdrs == [] then []
    else
      var n := |phdrs| - 1;
      PiecesOf(f, phdrs[..n], bias) + if Skipped(phdrs[n]) then [] else [Piece(f, phdrs[n], bias)]
  }

  function StackRegion(): Region { Region(STACK_BASE, USER_STACK_TOP, Anon, USER_ATTRS, None, 0, 0) }

  function HeapRegion(start: nat): Region { Region(start, USER_HEAP_LIMIT, Anon, USER_ATTRS, None, 0, 0) }

  /** Every segment is good and ends within a page of `maxEnd`. */
  ghost predicate Below(pieces: seq<Piece>, maxEnd: nat) {
    forall i :: 0 <= i < |pieces| ==>
      Good(pieces[i].file, pieces[i].p, pieces[i].bias) && Last(pieces[i].p, pieces[i].bias) < maxEnd + PAGE_SIZE
  }

  /** The regions of a process the loader has built: its segments, then stack and heap as far as there was room. */
  ghost predicate Built(regions: seq<Region>, pieces: seq<Piece>, heapStart: nat) {
    && RegionsOf(pieces) <= regions
    && (forall i :: |pieces| <= i < |regions| ==> regions[i] == StackRegion() || regions[i] == HeapRegion(heapStart))
    && (forall i :: 0 <= i < |pieces| ==>
          Good(pieces[i].file, pieces[i].p, pieces[i].bias) && Last(pieces[i].p, pieces[i].bias) <= heapStart)
  }

  /** `start` and `end` are the least and the greatest address of the loadable segments. */
  ghost predicate IsBounds(phdrs: seq<Phdr>, start: nat, end: nat) {
    && (forall i :: 0 <= i < |phdrs| && !Skipped(phdrs[i]) ==> start <= phdrs[i].vaddr && phdrs[i].vaddr + phdrs[i].memsz <= end)
    && (exists i :: 0 <= i < |phdrs| && !Skipped(phdrs[i]) && phdrs[i].vaddr == start)
    && (exists i :: 0 <= i < |phdrs| && !Skipped(phdrs[i]) && phdrs[i].vaddr + phdrs[i].memsz == end)
  }

  /** Something to load, and nothing malformed. */
  ghost predicate Loadable(phdrs: seq<Phdr>) {
    (exists i :: 0 <= i < |phdrs| && !Skipped(phdrs[i])) && forall i :: 0 <= i < |phdrs| ==> Bounded(phdrs[i])
  }

  ghost predicate AllAccepted(f: File, phdrs: seq<Phdr>, bias: Word) {
    forall i :: 0 <= i < |phdrs| ==> Skipped(phdrs[i]) || Accepted(f, phdrs[i], bias)
  }

  /** The span fits between the code base and the guard page below the heap limit. */
  predicate Roomy(start: Word, end: Word) {
    start < end && USER_CODE_BASE + AlignUp(end - start) + PAGE_SIZE <= USER_HEAP_LIMIT
  }

  /** The highest base an image may have. */
  function MaxBase(start: Word, end: Word): int
    requires start < end
  {
    USER_HEAP_LIMIT - PAGE_SIZE - AlignUp(end - start)
  }

  /** Images go one stride above each other, and from the code base again at the top. */
  function BaseFor(next: Word, start: Word, end: Word): Word
    requires start < end
  {
    if next < USER_CODE_BASE || next > MaxBase(start, end) then USER_CODE_BASE else next
  }

  function BaseAfter(next: Word, start: Word, end: Word): Word
    requires start < end
  {
    if Plus(BaseFor(next, start, end), STRIDE) > MaxBase(start, end) then USER_CODE_BASE else Plus(BaseFor(next, start, end), STRIDE)
  }

  /** The bias of an image: none unless it is position independent and there is room for it. */
  function BiasFor(dyn: bool, next: Word, start: Word, end: Word): Word
    requires start < end
  {
    if dyn && Roomy(start, end) then Minus(BaseFor(next, start, end), start) else 0
  }

  /** The base the next image starts from: a stride further, or past an image that was not moved. */
  function NextBase(dyn: bool, next: Word, start: Word, end: Word): Word
    requires start < end
  {
    if dyn then (if Roomy(start, end) then BaseAfter(next, start, end) else next)
    else if next < Plus(start, Up(end - start)) then StrideDown(Plus(Plus(start, Up(end - start)), STRIDE - 1))
    else next
  }

  /** Where a bias puts an image: unmoved, or in the room for it. */
  predicate BiasOk(bias: Word, start: Word, end: Word) {
    bias == 0 || (Roomy(start, end) && Plus(bias, start) + AlignUp(end - start) + PAGE_SIZE <= USER_HEAP_LIMIT)
  }

  /** What `process_register_loaded_object` demands of an object, its bounds and its bias. */
  ghost predicate Registers(o: Object, setEntry: bool, objects: nat, regions: nat, l: Loaded) {
    && !(o.dyn && l.bias == 0 && l.start != 0 && objects > 0)
    && (setEntry ==> l.start <= o.entry < l.end)
    && AllAccepted(o.file, o.phdrs, l.bias) && regions + |PiecesOf(o.file, o.phdrs, l.bias)| <= REGIONS_MAX
    && Up(Plus(MappedEnd(l), PAGE_SIZE)) <= USER_HEAP_LIMIT
  }

  /** All of what it demands; `l` holds the object's own bounds. */
  ghost predicate CanRegister(o: Object, setEntry: bool, objects: nat, regions: nat, l: Loaded) {
    objects < OBJECTS_MAX && Loadable(o.phdrs) && IsBounds(o.phdrs, l.start, l.end) && Registers(o, setEntry, objects, regions, l)
  }

  ghost predicate WithInterp(interp: Option<Object>, objects: nat, regions: nat, l: Loaded) {
    interp.Some? ==> CanRegister(interp.value, true, objects, regions, l)
  }

  ghost function InterpPieces(interp: Option<Object>, l: Loaded): seq<Piece> {
    if interp.Some? then PiecesOf(interp.value.file, interp.value.phdrs, l.bias) else []
  }

  /** Load bias and bounds of an object. */
  datatype Loaded = Loaded(bias: Word, start: Word, end: Word)

  function MappedEnd(l: Loaded): Word { Up(Plus(l.bias, l.end)) }

  class Process {
    var regions: seq<Region>
    var maxEnd: Word
    var nextBase: Word
    var objects: nat
    var entry: Word
    ghost var pieces: seq<Piece>

    ghost predicate Loading()
      reads this
    {
      && regions == RegionsOf(pieces) && |regions| <= REGIONS_MAX
      && forall i :: 0 <= i < |pieces| ==> Accepted(pieces[i].file, pieces[i].p, pieces[i].bias)
    }

    /** Between two objects: the heap will fit above everything mapped. */
    ghost predicate Ready()
      reads this
    {
      Loading() && Below(pieces, maxEnd) && maxEnd + PAGE_SIZE <= USER_HEAP_LIMIT && nextBase % PAGE_SIZE == 0
    }

    constructor ()
      ensures Ready() && pieces == [] && objects == 0 && nextBase == USER_CODE_BASE
    {
      regions, pieces, maxEnd, nextBase, objects, entry := [], [], 0, USER_CODE_BASE, 0, 0;
    }

    /** `process_add_region`. */
    method AddRegion(r: Region) returns (ok: bool)
      modifies this`regions
      ensures ok <==> |old(regions)| < 16
      ensures regions == if ok then old(regions) + [r] else old(regions)
    {
      if |regions| >= REGIONS_MAX {
        return false;
      }
      regions := regions + [r];
      ok := true;
    }

    /** `process_map_elf_segment`. */
    method MapSegment(f: File, p: Phdr, bias: Word) returns (ok: bool)
      requires Loading()
      modifies this`regions, this`pieces
      ensures Loading()
      ensures ok <==> Skipped(p) || (Accepted(f, p, bias) && |old(regions)| < REGIONS_MAX)
      ensures pieces == if ok && !Skipped(p) then old(pieces) + [Piece(f, p, bias)] else old(pieces)
    {
      if !p.load || p.memsz == 0 {
        return true;
      }
      if p.writable && p.executable {
        return false;
      }
      if p.filesz > p.memsz || Plus(p.offset, p.filesz) > |f.bytes| {
        return false;
      }
      var r := SegmentRegion(f, p, bias);
      if r.start < USER_CODE_BASE || r.end > USER_HEAP_LIMIT || r.end <= r.start {
        return false;
      }
      ok := AddRegion(r);
      if ok {
        pieces := pieces + [Piece(f, p, bias)];
        assert regions == RegionsOf(pieces);
      }
    }

    /** The segment loop of `process_register_loaded_object`. */
    method MapObject(f: File, phdrs: seq<Phdr>, bias: Word) returns (ok: bool)
      requires Loading()
      modifies this`regions, this`pieces
      ensures Loading()
      ensures ok ==> pieces == old(pieces) + PiecesOf(f, phdrs, bias)
      ensures ok <==> AllAccepted(f, phdrs, bias) && |old(regions)| + |PiecesOf(f, phdrs, bias)| <= REGIONS_MAX
    {
      for i := 0 to |phdrs|
        invariant Loading() && pieces == old(pieces) + PiecesOf(f, phdrs[..i], bias)
        invariant AllAccepted(f, phdrs[..i], bias) && |regions| == |old(regions)| + |PiecesOf(f, phdrs[..i], bias)|
      {
        ghost var now, mapped := |regions|, PiecesOf(f, phdrs[..i], bias);
        ok := MapSegment(f, phdrs[i], bias);
        MapStep(f, phdrs, bias, i, |old(regions)|, now, ok);
        if !ok {
          return;
        }
        Appended(old(pieces), mapped, if Skipped(phdrs[i]) then [] else [Piece(f, phdrs[i], bias)]);
      }
      assert phdrs[..|phdrs|] == phdrs;
      ok := true;
    }

    /** `process_choose_elf_load_bias`: 0, or such that the image lands in the room for it. */
    method ChooseBias(start: Word, end: Word) returns (bias: Word)
      requires start < end && nextBase % PAGE_SIZE == 0
      modifies this`nextBase
      ensures BiasOk(bias, start, end) && nextBase % PAGE_SIZE == 0
      ensures Roomy(start, end) ==> USER_CODE_BASE <= Plus(bias, start) && (bias % PAGE_SIZE == 0 <==> start % PAGE_SIZE == 0)
      ensures bias == BiasFor(true, old(nextBase), start, end)
      ensures Roomy(start, end) ==> nextBase == BaseAfter(old(nextBase), start, end)
      ensures !Roomy(start, end) ==> bias == 0 && nextBase == old(nextBase)
    {
      bias := 0;
      UpWraps(end - start);
      var span := Up(end - start);
      if span == 0 || span >= USER_HEAP_LIMIT - USER_CODE_BASE {
        return;
      }
      var maxBase := Minus(USER_HEAP_LIMIT - PAGE_SIZE, span);
      if maxBase < USER_CODE_BASE {
        return;
      }
      var base: Word := nextBase;
      if base < USER_CODE_BASE || base > maxBase {
        base := USER_CODE_BASE;
      }
      LeadOf(base, STRIDE);
      nextBase := Plus(base, STRIDE);
      if nextBase > maxBase {
        nextBase := USER_CODE_BASE;
      }
      bias := Minus(base, start);
      LeadBack(base, start);
    }

    /** `process_register_loaded_object`, on a parsed header. */
    method Register(o: Object, setEntry: bool) returns (ok: bool, l: Loaded)
      requires Ready()
      modifies this
      ensures Loading() && (ok ==> Ready())
      ensures ok ==> Loadable(o.phdrs) && IsBounds(o.phdrs, l.start, l.end) && pieces == old(pieces) + PiecesOf(o.file, o.phdrs, l.bias)
      ensures ok ==> (!o.dyn ==> l.bias == 0) && BiasOk(l.bias, l.start, l.end)
      ensures ok ==> (l.bias % PAGE_SIZE == 0 <==> l.start % PAGE_SIZE == 0 || l.bias == 0)
      ensures ok ==> objects == old(objects) + 1 && maxEnd == if MappedEnd(l) > old(maxEnd) then MappedEnd(l) else old(maxEnd)
      ensures old(objects) < OBJECTS_MAX && Loadable(o.phdrs) ==>
        && IsBounds(o.phdrs, l.start, l.end) && l.start < l.end && l.bias == BiasFor(o.dyn, old(nextBase), l.start, l.end)
        && nextBase == NextBase(o.dyn, old(nextBase), l.start, l.end)
      ensures ok <==> CanRegister(o, setEntry, old(objects), |old(pieces)|, l)
      ensures ok ==> entry == if setEntry then Plus(l.bias, o.entry) else old(entry)
    {
      l := Loaded(0, 0, 0);
      if objects >= OBJECTS_MAX {
        return false, l;
      }
      var found, start, end := LoadBounds(o.phdrs);
      if !found {
        return false, l;
      }
      var bias := Place(o.dyn, start, end);
      l := Loaded(bias, start, end);
      if o.dyn && bias == 0 && start != 0 && objects > 0 {
        return false, l;
      }
      if setEntry {
        if o.entry < start || o.entry >= end {
          return false, l;
        }
        entry := Plus(bias, o.entry);
      }
      ok := MapObject(o.file, o.phdrs, bias);
      if ok {
        ok := Extend(o, l, old(pieces));
      }
    }

    /** The end of `process_register_loaded_object`: leave a guard page and note how far up the object reaches. */
    method Extend(o: Object, l: Loaded, ghost before: seq<Piece>) returns (ok: bool)
      requires Loading() && Below(before, maxEnd) && pieces == before + PiecesOf(o.file, o.phdrs, l.bias)
      requires maxEnd + PAGE_SIZE <= USER_HEAP_LIMIT && nextBase % PAGE_SIZE == 0
      requires Loadable(o.phdrs) && IsBounds(o.phdrs, l.start, l.end) && AllAccepted(o.file, o.phdrs, l.bias) && BiasOk(l.bias, l.start, l.end)
      modifies this`maxEnd, this`objects
      ensures Loading() && (ok ==> Ready())
      ensures ok <==> Up(Plus(MappedEnd(l), PAGE_SIZE)) <= USER_HEAP_LIMIT
      ensures ok ==> objects == old(objects) + 1 && maxEnd == if MappedEnd(l) > old(maxEnd) then MappedEnd(l) else old(maxEnd)
    {
      var mappedEnd := Up(Plus(l.bias, l.end));
      if Up(Plus(mappedEnd, PAGE_SIZE)) > USER_HEAP_LIMIT {
        return false;
      }
      GuardFits(mappedEnd);
      AllBelow(before, o, l, maxEnd);
      if mappedEnd > maxEnd {
        maxEnd := mappedEnd;
      }
      objects := objects + 1;
      ok := true;
    }

    /** The load bias of an object, and the base the next one starts from. */
    method Place(dyn: bool, start: Word, end: Word) returns (bias: Word)
      requires start < end && nextBase % PAGE_SIZE == 0
      modifies this`nextBase
      ensures BiasOk(bias, start, end) && (!dyn ==> bias == 0) && nextBase % PAGE_SIZE == 0
      ensures bias % PAGE_SIZE == 0 <==> start % PAGE_SIZE == 0 || bias == 0
      ensures bias == BiasFor(dyn, old(nextBase), start, end) && nextBase == NextBase(dyn, old(nextBase), start, end)
    {
      if dyn {
        bias := ChooseBias(start, end);
      } else {
        bias := 0;
        var span := Up(end - start);
        if nextBase < Plus(start, span) {
          nextBase := StrideDown(Plus(Plus(start, span), STRIDE - 1));
        }
      }
    }

    /** The end of `process_create_from_elf`: stack and heap go last, so they would win any overlap. */
    method Finish() returns (ok: bool, heapStart: nat)
      requires Ready()
      modifies this`regions
      ensures ok && heapStart == AlignUp(maxEnd + PAGE_SIZE) && Built(regions, pieces, heapStart)
      ensures |pieces| + 2 <= REGIONS_MAX ==> regions == RegionsOf(pieces) + [StackRegion(), HeapRegion(heapStart)]
    {
      UpWraps(maxEnd + PAGE_SIZE);
      heapStart := Up(Plus(maxEnd, PAGE_SIZE));
      if heapStart > USER_HEAP_LIMIT {
        assert false;                    // every object left room for the guard page
      }
      var added := AddRegion(StackRegion());
      added := AddRegion(HeapRegion(heapStart));
      ok := true;
    }

    /**
     `process_create_from_elf`: the program, its interpreter if it names one, then stack and
     heap.  It fails exactly if one of the two is not registered; `l` and `i` are where they go.
     */
    method Create(main: Object, interp: Option<Object>) returns (ok: bool, heapStart: nat, ghost l: Loaded, ghost i: Loaded)
      requires Ready() && pieces == []
      modifies this
      ensures ok ==> Built(regions, pieces, heapStart)
      ensures ok ==> pieces == PiecesOf(main.file, main.phdrs, l.bias) + InterpPieces(interp, i)
      ensures ok <==>
        && CanRegister(main, interp.None?, old(objects), 0, l)
        && WithInterp(interp, old(objects) + 1, |PiecesOf(main.file, main.phdrs, l.bias)|, i)
      ensures old(objects) < OBJECTS_MAX && Loadable(main.phdrs) ==>
        IsBounds(main.phdrs, l.start, l.end) && l.start < l.end && l.bias == BiasFor(main.dyn, old(nextBase), l.start, l.end)
      ensures CanRegister(main, interp.None?, old(objects), 0, l) && interp.Some? && old(objects) + 1 < OBJECTS_MAX && Loadable(interp.value.phdrs) ==>
        && IsBounds(interp.value.phdrs, i.start, i.end) && l.start < l.end && i.start < i.end
        && i.bias == BiasFor(interp.value.dyn, NextBase(main.dyn, old(nextBase), l.start, l.end), i.start, i.end)
      ensures ok ==> entry == if interp.Some? then Plus(i.bias, interp.value.entry) else Plus(l.bias, main.entry)
    {
      heapStart := 0;
      i := Loaded(0, 0, 0);
      var at;
      ok, at := Register(main, interp.None?);
      l := at;
      if !ok {
        return;
      }
      assert pieces == PiecesOf(main.file, main.phdrs, l.bias);
      ok, i := RegisterInterp(interp);
      if !ok {
        return;
      }
      ok, heapStart := Finish();
    }

    method RegisterInterp(interp: Option<Object>) returns (ok: bool, ghost i: Loaded)
      requires Ready()
      modifies this
      ensures ok ==> Ready() && pieces == old(pieces) + InterpPieces(interp, i)
      ensures ok <==> WithInterp(interp, old(objects), |old(pieces)|, i)
      ensures interp.Some? && old(objects) < OBJECTS_MAX && Loadable(interp.value.phdrs) ==>
        IsBounds(interp.value.phdrs, i.start, i.end) && i.start < i.end && i.bias == BiasFor(interp.value.dyn, old(nextBase), i.start, i.end)
      ensures ok ==> entry == if interp.Some? then Plus(i.bias, interp.value.entry) else old(entry)
    {
      i := Loaded(0, 0, 0);
      if interp.None? {
        return true, i;
      }
      var at;
      ok, at := Register(interp.value, true);
      i := at;
    }
  }

  /**
   A position-independent image that starts in the middle of a page, loaded after another
   one.  The loader takes its second segment, which starts on a page, and a fault on the
   first byte of that finds zero instead of the byte in the file.
   */
  method FirstPageLost(f: File) returns (p: Process, seg: Phdr, bias: Word)
    requires 0x1100 <= |f.bytes| < WORD && f.bytes[0x1000] != 0
    ensures fresh(p) && p.regions == [SegmentRegion(f, seg, bias)] && Good(f, seg, bias) && Inside(f, seg)
    ensures Holds(seg, bias, Where(seg, bias)) && EagerByte(f, seg, bias, Where(seg, bias)) != 0
    ensures var va := Where(seg, bias); PageContent(p.regions[0], PageOf(va))[va % PAGE_SIZE] == 0
  {
    p, bias := SecondBias();
    seg := Phdr(true, 0x2000, 0x1000, 0x100, 0x100, false, false);
    LostNumbers(f, seg);
    var ok := p.MapSegment(f, seg, bias);
    assert p.pieces == [Piece(f, seg, bias)];
    SegmentByte(f, seg, bias, Where(seg, bias));
  }

  method SecondBias() returns (p: Process, bias: Word)
    ensures fresh(p) && p.Ready() && p.pieces == [] && bias == 0x1_0800
  {
    p := new Process();
    assert AlignUp(0x1000) == 0x1000 && AlignUp(0x1900) == 0x2000;
    var first := p.ChooseBias(0, 0x1000);
    assert p.nextBase == 0x1_1000;
    bias := p.ChooseBias(0x800, 0x2100);
  }

  lemma LostNumbers(f: File, seg: Phdr)
    requires 0x1100 <= |f.bytes| < WORD && seg == Phdr(true, 0x2000, 0x1000, 0x100, 0x100, false, false)
    ensures Good(f, seg, 0x1_0800) && Inside(f, seg) && Where(seg, 0x1_0800) == 0x1_2800 == First(seg, 0x1_0800)
    ensures Accepted(f, seg, 0x1_0800) && PageOf(0x1_2800) == 0x1_2000
    ensures EagerByte(f, seg, 0x1_0800, 0x1_2800) == f.bytes[0x1000]
  {
    assert AlignDown(0x2000) == 0x2000 && Up(0x2100) == 0x3000;
    GoodMeans(f, seg, 0x1_0800);
  }

  lemma LeadBack(base: Word, start: Word)
    requires base % 4096 == 0
    ensures Minus(base, start) % 4096 == 0 <==> start % 4096 == 0
  {
  }

  function StrideDown(v: Word): (r: Word)
    ensures r % PAGE_SIZE == 0
  {
    assert (v - v % 0x1_0000) % 4096 == 0;
    v - v % 0x1_0000
  }

  /** A mapped end that passes the guard check is below the heap limit by a page. */
  lemma GuardFits(mappedEnd: Word)
    requires mappedEnd % 4096 == 0 && Up(Plus(mappedEnd, PAGE_SIZE)) <= USER_HEAP_LIMIT
    ensures mappedEnd + PAGE_SIZE <= USER_HEAP_LIMIT || mappedEnd + PAGE_SIZE == WORD
  {
    UpWraps(Plus(mappedEnd, PAGE_SIZE));
  }

  /** A segment of an object ends within a page of the object's mapped end. */
  lemma EndBelow(f: File, p: Phdr, q: Phdr, l: Loaded)
    requires Good(f, p, l.bias) && Good(f, q, l.bias) && BiasOk(l.bias, l.start, l.end)
    requires l.start <= p.vaddr && p.vaddr + p.memsz <= l.end && q.vaddr + q.memsz == l.end && l.start <= q.vaddr
    ensures Last(p, l.bias) < MappedEnd(l) + PAGE_SIZE && MappedEnd(l) + PAGE_SIZE < WORD
  {
    InOnePiece(f, p, l.bias);
    InOnePiece(f, q, l.bias);
    UpWraps(p.vaddr + p.memsz);
    UpWraps(l.end);
    UpWraps(Plus(l.bias, l.end));
    if l.bias == 0 {
      UpMonotone(p.vaddr + p.memsz, l.end);
    }
  }

  lemma UpMonotone(a: nat, b: nat)
    requires a <= b
    ensures AlignUp(a) <= AlignUp(b)
  {
  }

  lemma AllBelow(pieces: seq<Piece>, o: Object, l: Loaded, maxEnd: nat)
    requires Below(pieces, maxEnd) && Loadable(o.phdrs) && IsBounds(o.phdrs, l.start, l.end)
    requires AllAccepted(o.file, o.phdrs, l.bias) && BiasOk(l.bias, l.start, l.end)
    ensures Below(pieces + PiecesOf(o.file, o.phdrs, l.bias), if MappedEnd(l) > maxEnd then MappedEnd(l) else maxEnd)
    ensures MappedEnd(l) + PAGE_SIZE < WORD
  {
    var all := PiecesOf(o.file, o.phdrs, l.bias);
    var q :| 0 <= q < |o.phdrs| && !Skipped(o.phdrs[q]) && o.phdrs[q].vaddr + o.phdrs[q].memsz == l.end;
    GoodMeans(o.file, o.phdrs[q], l.bias);
    EndBelow(o.file, o.phdrs[q], o.phdrs[q], l);
    forall i | 0 <= i < |all|
      ensures Good(all[i].file, all[i].p, all[i].bias) && Last(all[i].p, all[i].bias) < MappedEnd(l) + PAGE_SIZE
    {
      var k := PieceSource(o.file, o.phdrs, l.bias, i);
      GoodMeans(o.file, o.phdrs[k], l.bias);
      EndBelow(o.file, o.phdrs[k], o.phdrs[q], l);
    }
  }

  /** Every piece of a file is one of its segments. */
  lemma {:induction false} PieceSource(f: File, phdrs: seq<Phdr>, bias: Word, i: nat) returns (k: nat)
    requires i < |PiecesOf(f, phdrs, bias)|
    ensures k < |phdrs| && !Skipped(phdrs[k]) && PiecesOf(f, phdrs, bias)[i] == Piece(f, phdrs[k], bias)
    decreases |phdrs|
  {
    var n := |phdrs| - 1;
    if i < |PiecesOf(f, phdrs[..n], bias)| {
      k := PieceSource(f, phdrs[..n], bias, i);
    } else {
      k := n;
    }
  }

  /** `process_elf_load_bounds`: where the segments of an image begin and end. */
  method LoadBounds(phdrs: seq<Phdr>) returns (found: bool, start: Word, end: Word)
    ensures found <==> Loadable(phdrs)
    ensures found ==> IsBounds(phdrs, start, end) && start < end
  {
    start, end, found := WORD - 1, 0, false;
    for i := 0 to |phdrs|
      invariant found <==> exists k :: 0 <= k < i && !Skipped(phdrs[k])
      invariant forall k :: 0 <= k < i ==> Bounded(phdrs[k])
      invariant forall k :: 0 <= k < i && !Skipped(phdrs[k]) ==> start <= phdrs[k].vaddr && phdrs[k].vaddr + phdrs[k].memsz <= end
      invariant found ==> exists k :: 0 <= k < i && !Skipped(phdrs[k]) && phdrs[k].vaddr + phdrs[k].memsz == end
      invariant found ==> exists k :: 0 <= k < i && !Skipped(phdrs[k]) && phdrs[k].vaddr == start
    {
      if Skipped(phdrs[i]) {
        continue;
      }
      if phdrs[i].filesz > phdrs[i].memsz {
        return false, 0, 0;
      }
      var segmentEnd := Plus(phdrs[i].vaddr, phdrs[i].memsz);
      if segmentEnd <= phdrs[i].vaddr {
        return false, 0, 0;
      }
      if !found || phdrs[i].vaddr < start {
        start := phdrs[i].vaddr;
      }
      if !found || segmentEnd > end {
        end := segmentEnd;
      }
      found := true;
    }
  }

  lemma MapStep(f: File, phdrs: seq<Phdr>, bias: Word, i: nat, before: nat, now: nat, ok: bool)
    requires i < |phdrs| && AllAccepted(f, phdrs[..i], bias) && now == before + |PiecesOf(f, phdrs[..i], bias)|
    requires ok <==> Skipped(phdrs[i]) || (Accepted(f, phdrs[i], bias) && now < REGIONS_MAX)
    ensures ok ==> AllAccepted(f, phdrs[..i + 1], bias)
    ensures PiecesOf(f, phdrs[..i + 1], bias) ==
      PiecesOf(f, phdrs[..i], bias) + if Skipped(phdrs[i]) then [] else [Piece(f, phdrs[i], bias)]
    ensures !ok ==> !(AllAccepted(f, phdrs, bias) && before + |PiecesOf(f, phdrs, bias)| <= REGIONS_MAX)
  {
    PiecesStep(f, phdrs, bias, i);
  }

  lemma Appended(a: seq<Piece>, b: seq<Piece>, c: seq<Piece>)
    ensures a + (b + c) == a + b + c && (c == [] ==> a + b + c == a + b)
  {
  }

  lemma PiecesStep(f: File, phdrs: seq<Phdr>, bias: Word, i: nat)
    requires i < |phdrs|
    ensures PiecesOf(f, phdrs[..i + 1], bias) ==
      PiecesOf(f, phdrs[..i], bias) + if Skipped(phdrs[i]) then [] else [Piece(f, phdrs[i], bias)]
    ensures |PiecesOf(f, phdrs[..i + 1], bias)| <= |PiecesOf(f, phdrs, bias)|
    ensures AllAccepted(f, phdrs, bias) ==> Skipped(phdrs[i]) || Accepted(f, phdrs[i], bias)
    ensures AllAccepted(f, phdrs[..i], bias) && (Skipped(phdrs[i]) || Accepted(f, phdrs[i], bias)) ==> AllAccepted(f, phdrs[..i + 1], bias)
  {
    assert phdrs[..i + 1][..i] == phdrs[..i];
    PiecesGrow(f, phdrs, bias, i + 1);
  }

  lemma {:induction false} PiecesGrow(f: File, phdrs: seq<Phdr>, bias: Word, n: nat)
    requires n <= |phdrs|
    ensures |PiecesOf(f, phdrs[..n], bias)| <= |PiecesOf(f, phdrs, bias)|
    decreases |phdrs|
  {
    if n < |phdrs| {
      var m := |phdrs| - 1;
      PiecesGrow(f, phdrs[..m], bias, n);
      assert phdrs[..m][..n] == phdrs[..n];
    } else {
      assert phdrs[..n] == phdrs;
    }
  }

  // ---------------------------------------------------------------- demand paging is eager loading

  /** No segment added after `k` has a page at `va`. */
  ghost predicate OnTop(pieces: seq<Piece>, k: nat, va: nat) {
    forall j :: k < j < |pieces| ==> !Covers(SegmentRegion(pieces[j].file, pieces[j].p, pieces[j].bias), va)
  }

  /**
   Whatever address of a segment a process touches first, unless a later segment shares the
   page, the fault handler finds that segment's region, neither stack nor heap shadows it,
   and every byte of the segment in the page it maps is the eager loader's; only under a
   bias that is not page aligned is the part in front of the first whole page zero.
   */
  lemma LazyIsEager(regions: seq<Region>, pieces: seq<Piece>, heapStart: nat, brk: nat, k: nat, va: nat, b: nat)
    requires Built(regions, pieces, heapStart) && k < |pieces| && OnTop(pieces, k, va)
    requires var x := pieces[k]; Holds(x.p, x.bias, va) && Holds(x.p, x.bias, b) && PageOf(b) == PageOf(va)
    ensures var x := pieces[k];
      var f := FaultFill(regions, brk, va);
      && f.Some? && f.value.attrs.el0 && !f.value.attrs.cow && (f.value.attrs.ro <==> !x.p.writable)
      && KernelNever(f.value.attrs) && (UserNever(f.value.attrs) <==> !x.p.executable)
      && f.value.bytes[b % PAGE_SIZE] == (if First(x.p, x.bias) <= PageOf(va) then EagerByte(x.file, x.p, x.bias, b) else 0)
      && (x.bias % PAGE_SIZE == 0 ==> First(x.p, x.bias) <= PageOf(va))
  {
    var x := pieces[k];
    SegmentByte(x.file, x.p, x.bias, va);
    SegmentByte(x.file, x.p, x.bias, b);
    InOnePiece(x.file, x.p, x.bias);
    GoodMeans(x.file, x.p, x.bias);
    SegmentRights(x.p);
    assert regions[k] == RegionsOf(pieces)[k];
    forall j | k < j < |regions| ensures !Covers(regions[j], va) {
      if j < |pieces| {
        assert regions[j] == RegionsOf(pieces)[j];
      }
    }
    LastDecides(regions, va, k);
  }

  /** No two segments share a page. */
  ghost predicate PageDisjoint(pieces: seq<Piece>) {
    var rs := RegionsOf(pieces);
    forall i, j :: 0 <= i < j < |rs| ==> rs[i].end <= rs[j].start || rs[j].end <= rs[i].start
  }

  /** Then every segment is on top wherever it is. */
  lemma DisjointOnTop(pieces: seq<Piece>, k: nat, va: nat)
    requires PageDisjoint(pieces) && k < |pieces| && Good(pieces[k].file, pieces[k].p, pieces[k].bias) && Holds(pieces[k].p, pieces[k].bias, va)
    ensures OnTop(pieces, k, va)
  {
    SegmentByte(pieces[k].file, pieces[k].p, pieces[k].bias, va);
    var rs := RegionsOf(pieces);
    forall j | k < j < |pieces| ensures !Covers(SegmentRegion(pieces[j].file, pieces[j].p, pieces[j].bias), va) {
      assert rs[k].end <= rs[j].start || rs[j].end <= rs[k].start;
    }
  }

  /** A process reads inside its images exactly if each of its segments does. */
  lemma AllInBounds(regions: seq<Region>, pieces: seq<Piece>, heapStart: nat)
    requires Built(regions, pieces, heapStart) && forall i :: 0 <= i < |pieces| ==> |pieces[i].file.bytes| < WORD
    ensures (forall r :: r in regions ==> InBounds(r)) <==> forall i :: 0 <= i < |pieces| ==> Inside(pieces[i].file, pieces[i].p)
  {
    forall i | 0 <= i < |regions| ensures InBounds(regions[i]) <==> (i < |pieces| ==> Inside(pieces[i].file, pieces[i].p)) {
      if i < |pieces| {
        assert regions[i] == RegionsOf(pieces)[i];
        BoundsExact(pieces[i].file, pieces[i].p, pieces[i].bias);
      }
    }
    if forall r :: r in regions ==> InBounds(r) {
      forall i | 0 <= i < |pieces| ensures Inside(pieces[i].file, pieces[i].p) {
        assert regions[i] in regions;
      }
    }
  }

  // ---------------------------------------------------------------- two images

  /** The lowest address of an image that is moved, as its bias puts it. */
  lemma MovedTo(next: Word, start: Word, end: Word)
    requires Roomy(start, end)
    ensures Plus(BiasFor(true, next, start, end), start) == BaseFor(next, start, end)
  {
  }

  /**
   Two position-independent images, one after the other, from any base: the second starts a
   stride of 64 KiB above the first, or at the code base where there is no room.  They are
   apart if and only if the first is no longer than the stride, or in the second case if the
   second ends below the first.
   */
  lemma ImagesApart(next: Word, s1: Word, e1: Word, s2: Word, e2: Word)
    requires Roomy(s1, e1) && Roomy(s2, e2)
    ensures var b1 := Plus(BiasFor(true, next, s1, e1), s1);
      var b2 := Plus(BiasFor(true, NextBase(true, next, s1, e1), s2, e2), s2);
      var n1, n2 := AlignUp(e1 - s1), AlignUp(e2 - s2);
      b1 + n1 <= b2 || b2 + n2 <= b1 <==>
        if b1 + 0x1_0000 + n1 <= 0x6fff_f000 && b1 + 0x1_0000 + n2 <= 0x6fff_f000 then n1 <= 0x1_0000 else 0x1000 + n2 <= b1
  {
    MovedTo(next, s1, e1);
    MovedTo(NextBase(true, next, s1, e1), s2, e2);
  }

  /**
   A program of 128 KiB with an interpreter: both are registered, and the interpreter lies in
   the middle of the program.  A fault on a byte of the program finds the interpreter's.
   */
  method ImagesOverlap(f: File, g: File) returns (p: Process, heapStart: nat)
    requires 0x2_0000 <= |f.bytes| < WORD && 0x1000 <= |g.bytes| < WORD && f.bytes[0x1_0000] != g.bytes[0]
    ensures fresh(p) && Built(p.regions, p.pieces, heapStart) && |p.pieces| == 2
    ensures var x := p.pieces[0]; x.file == f && Holds(x.p, x.bias, 0x1_1000) && EagerByte(f, x.p, x.bias, 0x1_1000) == f.bytes[0x1_0000]
    ensures forall brk: nat :: FaultFill(p.regions, brk, 0x1_1000).Some? && FaultFill(p.regions, brk, 0x1_1000).value.bytes[0] == g.bytes[0]
  {
    p := new Process();
    var big, small := Phdr(true, 0, 0, 0x2_0000, 0x2_0000, false, true), Phdr(true, 0, 0, 0x1000, 0x1000, false, true);
    var main, interp := Object(f, [big], true, 0), Object(g, [small], true, 0);
    ghost var l, i;
    var ok;
    OverlapNumbers(f, g, big, small);
    OneSegment(f, big, 0x1000);
    OneSegment(g, small, 0x1_1000);
    ok, heapStart, l, i := p.Create(main, Some(interp));
    assert l == Loaded(0x1000, 0, 0x2_0000);
    EndNumbers();
    assert ok by {
      assert CanRegister(main, false, 0, 0, l);
      assert i == Loaded(0x1_1000, 0, 0x1000);
    }
    SecondWins(f, g, big, small, p.regions, p.pieces, heapStart);
  }

  lemma OneSegment(f: File, seg: Phdr, bias: Word)
    requires !Skipped(seg) && Bounded(seg)
    ensures Loadable([seg]) && PiecesOf(f, [seg], bias) == [Piece(f, seg, bias)]
    ensures forall start, end :: IsBounds([seg], start, end) <==> start == seg.vaddr && end == seg.vaddr + seg.memsz
    ensures AllAccepted(f, [seg], bias) <==> Accepted(f, seg, bias)
  {
    assert [seg][0] == seg && [seg][..0] == [];
  }

  lemma EndNumbers()
    ensures Up(Plus(MappedEnd(Loaded(0x1000, 0, 0x2_0000)), PAGE_SIZE)) <= USER_HEAP_LIMIT
    ensures Up(Plus(MappedEnd(Loaded(0x1_1000, 0, 0x1000)), PAGE_SIZE)) <= USER_HEAP_LIMIT
  {
  }

  lemma SecondWins(f: File, g: File, big: Phdr, small: Phdr, regions: seq<Region>, pieces: seq<Piece>, heapStart: nat)
    requires 0x2_0000 <= |f.bytes| < WORD && 0x1000 <= |g.bytes| < WORD
    requires big == Phdr(true, 0, 0, 0x2_0000, 0x2_0000, false, true) && small == Phdr(true, 0, 0, 0x1000, 0x1000, false, true)
    requires Built(regions, pieces, heapStart) && pieces == [Piece(f, big, 0x1000), Piece(g, small, 0x1_1000)]
    ensures Holds(big, 0x1000, 0x1_1000) && EagerByte(f, big, 0x1000, 0x1_1000) == f.bytes[0x1_0000]
    ensures forall brk: nat :: FaultFill(regions, brk, 0x1_1000).Some? && FaultFill(regions, brk, 0x1_1000).value.bytes[0] == g.bytes[0]
  {
    BigNumbers(f, big);
    forall brk: nat ensures FaultFill(regions, brk, 0x1_1000).Some? && FaultFill(regions, brk, 0x1_1000).value.bytes[0] == g.bytes[0] {
      SecondByte(g, small, regions, pieces, heapStart, brk);
    }
  }

  lemma SecondByte(g: File, small: Phdr, regions: seq<Region>, pieces: seq<Piece>, heapStart: nat, brk: nat)
    requires 0x1000 <= |g.bytes| < WORD && small == Phdr(true, 0, 0, 0x1000, 0x1000, false, true)
    requires Built(regions, pieces, heapStart) && |pieces| == 2 && pieces[1] == Piece(g, small, 0x1_1000)
    ensures FaultFill(regions, brk, 0x1_1000).Some? && FaultFill(regions, brk, 0x1_1000).value.bytes[0] == g.bytes[0]
  {
    SmallNumbers(g, small);
    assert PageOf(0x1_1000) == 0x1_1000;
    assert EagerByte(g, small, 0x1_1000, 0x1_1000) == g.bytes[0];
    LazyIsEager(regions, pieces, heapStart, brk, 1, 0x1_1000, 0x1_1000);
  }

  lemma OverlapNumbers(f: File, g: File, big: Phdr, small: Phdr)
    requires 0x2_0000 <= |f.bytes| < WORD && 0x1000 <= |g.bytes| < WORD
    requires big == Phdr(true, 0, 0, 0x2_0000, 0x2_0000, false, true) && small == Phdr(true, 0, 0, 0x1000, 0x1000, false, true)
    ensures BiasFor(true, 0x1000, 0, 0x2_0000) == 0x1000 && NextBase(true, 0x1000, 0, 0x2_0000) == 0x1_1000
    ensures BiasFor(true, 0x1_1000, 0, 0x1000) == 0x1_1000
    ensures Accepted(f, big, 0x1000) && Accepted(g, small, 0x1_1000)
  {
    BiasNumbers();
    BigNumbers(f, big);
    SmallNumbers(g, small);
  }

  lemma BiasNumbers()
    ensures BiasFor(true, 0x1000, 0, 0x2_0000) == 0x1000 && NextBase(true, 0x1000, 0, 0x2_0000) == 0x1_1000
    ensures BiasFor(true, 0x1_1000, 0, 0x1000) == 0x1_1000
  {
    assert AlignUp(0x2_0000) == 0x2_0000 && AlignUp(0x1000) == 0x1000;
  }

  lemma BigNumbers(f: File, big: Phdr)
    requires 0x2_0000 <= |f.bytes| < WORD && big == Phdr(true, 0, 0, 0x2_0000, 0x2_0000, false, true)
    ensures Accepted(f, big, 0x1000) && Where(big, 0x1000) == 0x1000
  {
  }

  lemma SmallNumbers(g: File, small: Phdr)
    requires 0x1000 <= |g.bytes| < WORD && small == Phdr(true, 0, 0, 0x1000, 0x1000, false, true)
    ensures Accepted(g, small, 0x1_1000) && Where(small, 0x1_1000) == 0x1_1000 == First(small, 0x1_1000)
  {
  }
}
