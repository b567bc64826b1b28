/**
 The loader and the fault handler together: what the pages of a process hold, and what may be
 done with them, when they are first touched.
 */
module FirstTouch {
  import opened Wrappers
  import opened Descriptor
  import opened AddressSpace
  import opened Region
  import opened ElfLoad
  import opened World
  import opened Coupling
  import opened Mmu

  /** Every address of the stack is filled with a blank page, whether or not its region found room in the table. */
  lemma StackBlank(regions: seq<Region>, pieces: seq<Piece>, heapStart: nat, brk: nat, va: nat)
    requires Built(regions, pieces, heapStart) && 0x7ff0_0000 <= va < 0x8000_0000
    ensures FaultFill(regions, brk, va).Some? && ZeroFilled(FaultFill(regions, brk, va).value)
  {
    forall i: nat | i < |regions| && Covers(regions[i], va) ensures regions[i] == StackRegion() {
      if i < |pieces| {
        SegmentAt(regions, pieces, heapStart, i);
      }
    }
    UserBits();
    if Deciding(regions, va).None? {
      OutsideGives(regions, brk, va);
    }
  }

  /** So is every address of the heap, if its region did. */
  lemma HeapBlank(regions: seq<Region>, pieces: seq<Piece>, heapStart: nat, brk: nat, va: nat)
    requires Built(regions, pieces, heapStart) && heapStart <= va < 0x7000_0000 && HeapRegion(heapStart) in regions
    ensures FaultFill(regions, brk, va).Some? && ZeroFilled(FaultFill(regions, brk, va).value)
  {
    forall i: nat | i < |regions| && Covers(regions[i], va) ensures regions[i] == HeapRegion(heapStart) {
      if i < |pieces| {
        SegmentAt(regions, pieces, heapStart, i);
      }
    }
    UserBits();
    assert Covers(HeapRegion(heapStart), va);
  }

  /** The regions below the pieces are theirs, end below heap and stack, and have their rights. */
  lemma SegmentAt(regions: seq<Region>, pieces: seq<Piece>, heapStart: nat, i: nat)
    requires Built(regions, pieces, heapStart) && i < |pieces|
    ensures i < |regions| && regions[i].end <= heapStart && regions[i].end <= 0x7000_0000 && RightsAs(regions[i].attrs, pieces[i].p)
    ensures !(pieces[i].p.writable && pieces[i].p.executable)
  {
    var x := pieces[i];
    InOnePiece(x.file, x.p, x.bias);
    GoodMeans(x.file, x.p, x.bias);
    SegmentRights(x.p);
    assert regions[i] == RegionsOf(pieces)[i];
  }

  /** No page a process can get is one it may both write and execute, and none is the kernel's to execute. */
  lemma NeverBoth(regions: seq<Region>, pieces: seq<Piece>, heapStart: nat, brk: nat, va: nat)
    requires Built(regions, pieces, heapStart) && FaultFill(regions, brk, va).Some?
    ensures var a := FaultFill(regions, brk, va).value.attrs;
      a.el0 && !a.cow && KernelNever(a) && (a.ro || UserNever(a))
  {
    UserBits();
    forall i: nat | i < |regions| ensures var a := regions[i].attrs; a.el0 && !a.cow && KernelNever(a) && (a.ro || UserNever(a)) {
      if i < |pieces| {
        SegmentAt(regions, pieces, heapStart, i);
      }
    }
  }

  /** The entry the hardware finds: a page of the user's own with the rights that filled it. */
  ghost predicate EntryAs(e: Desc, write: bool, execute: bool) {
    e.Full? && e.attrs.el0 && !e.attrs.cow && (e.attrs.ro <==> !write) && KernelNever(e.attrs) && (UserNever(e.attrs) <==> !execute)
  }

  /** The non-global bit leaves the others alone. */
  lemma NonGlobalRights(a: Attrs)
    ensures var b := NonGlobal(a); b.el0 == a.el0 && b.ro == a.ro && b.cow == a.cow
    ensures (KernelNever(NonGlobal(a)) <==> KernelNever(a)) && (UserNever(NonGlobal(a)) <==> UserNever(a))
  {
    NeverBits(a.rest);
  }

  lemma NeverBits(w: bv64)
    ensures (w | 0x800) & 0x0020_0000_0000_0000 == w & 0x0020_0000_0000_0000
    ensures (w | 0x800) & 0x0040_0000_0000_0000 == w & 0x0040_0000_0000_0000
  {
  }

  /** The first touch of an address that something fills: the page has its bytes and the entry its rights. */
  ghost predicate Filled(m: map<Path, UserPage>, e: Desc, va: nat, f: Fill) {
    && PathOf(va) in m && m[PathOf(va)].bytes == f.bytes && m[PathOf(va)].rights == Rights(f.attrs.el0, !f.attrs.ro || f.attrs.cow)
    && e.Full? && e.attrs.el0 == f.attrs.el0 && e.attrs.ro == f.attrs.ro && e.attrs.cow == f.attrs.cow
    && (KernelNever(e.attrs) <==> KernelNever(f.attrs)) && (UserNever(e.attrs) <==> UserNever(f.attrs))
  }

  method Touch(m: Mmu, c: nat, regions: seq<Region>, brk: nat, va: nat) returns (ok: bool)
    requires m.Valid() && c in m.ctxs && c in m.eager && PathOf(va) !in m.eager[c]
    modifies m
    ensures m.Valid() && c in m.ctxs && c in m.eager
    ensures ok ==> FaultFill(regions, brk, va).Some? && Filled(m.eager[c], Leaf(m.W().s, c, PathOf(va)), va, FaultFill(regions, brk, va).value)
  {
    ok := m.TranslationFault(c, regions, brk, va);
    if FaultFill(regions, brk, va).Some? {
      NonGlobalRights(FaultFill(regions, brk, va).value.attrs);
    }
  }

  /** The page at `va` is zero, readable and writable. */
  ghost predicate FreshPage(m: map<Path, UserPage>, va: nat) {
    && PathOf(va) in m && m[PathOf(va)].rights == Rights(true, true) && |m[PathOf(va)].bytes| == 4096
    && forall j :: 0 <= j < 4096 ==> m[PathOf(va)].bytes[j] == 0
  }

  /** The first touch of stack or heap: zeros, writable, not executable. */
  method TouchBlank(m: Mmu, c: nat, regions: seq<Region>, ghost pieces: seq<Piece>, ghost heapStart: nat, brk: nat, va: nat) returns (ok: bool)
    requires m.Valid() && c in m.ctxs && c in m.eager && Built(regions, pieces, heapStart) && PathOf(va) !in m.eager[c]
    requires 0x7ff0_0000 <= va < 0x8000_0000 || (heapStart <= va < 0x7000_0000 && HeapRegion(heapStart) in regions)
    modifies m
    ensures m.Valid() && c in m.ctxs && c in m.eager
    ensures ok ==> FreshPage(m.eager[c], va) && EntryAs(Leaf(m.W().s, c, PathOf(va)), true, false)
  {
    if 0x7ff0_0000 <= va {
      StackBlank(regions, pieces, heapStart, brk, va);
    } else {
      HeapBlank(regions, pieces, heapStart, brk, va);
    }
    ok := Touch(m, c, regions, brk, va);
  }

  /** Byte `rel` of a segment, counted from its first address, is the file's or past the file part zero. */
  ghost predicate FileByteAt(x: Piece, bytes: Bytes, rel: nat)
    requires |bytes| == 4096
  {
    bytes[(Where(x.p, x.bias) + rel) % 4096] ==
      if rel < x.p.filesz then x.file.At((x.p.offset + rel) % 0x1_0000_0000_0000_0000) else 0
  }

  /** The bytes of the segment on the page of `va`. */
  ghost predicate SegmentBytes(x: Piece, bytes: Bytes, va: nat) {
    && |bytes| == 4096
    && forall rel: nat :: rel < x.p.memsz && PageOf(Where(x.p, x.bias) + rel) == PageOf(va) ==> FileByteAt(x, bytes, rel)
  }

  /** What fills an address of a segment that no later one shares the page with. */
  ghost predicate FillsAs(x: Piece, f: Fill, va: nat) {
    && |f.bytes| == 4096 && f.attrs.el0 && !f.attrs.cow && (f.attrs.ro <==> !x.p.writable)
    && KernelNever(f.attrs) && (UserNever(f.attrs) <==> !x.p.executable)
    && (First(x.p, x.bias) <= PageOf(va) ==> SegmentBytes(x, f.bytes, va))
  }

  /** Address `b` of the segment, on the page of `va`. */
  ghost predicate Here(x: Piece, va: nat, b: nat) { Holds(x.p, x.bias, b) && PageOf(b) == PageOf(va) }

  ghost predicate ByteFills(x: Piece, bytes: Bytes, b: nat)
    requires |bytes| == 4096 && Where(x.p, x.bias) <= b
  {
    bytes[b % 4096] == EagerByte(x.file, x.p, x.bias, b)
  }

  lemma EagerFills(x: Piece, bytes: Bytes, va: nat)
    requires |bytes| == 4096 && forall b :: Here(x, va, b) ==> ByteFills(x, bytes, b)
    ensures SegmentBytes(x, bytes, va)
  {
    forall rel: nat | rel < x.p.memsz && PageOf(Where(x.p, x.bias) + rel) == PageOf(va) ensures FileByteAt(x, bytes, rel) {
      assert Here(x, va, Where(x.p, x.bias) + rel);
    }
  }

  lemma SegmentFill(regions: seq<Region>, pieces: seq<Piece>, heapStart: nat, brk: nat, k: nat, va: nat)
    requires Built(regions, pieces, heapStart) && k < |pieces| && OnTop(pieces, k, va) && Holds(pieces[k].p, pieces[k].bias, va)
    ensures FaultFill(regions, brk, va).Some? && FillsAs(pieces[k], FaultFill(regions, brk, va).value, va)
  {
    var x := pieces[k];
    LazyIsEager(regions, pieces, heapStart, brk, k, va, va);
    if First(x.p, x.bias) <= PageOf(va) {
      forall b | Here(x, va, b) ensures ByteFills(x, FaultFill(regions, brk, va).value.bytes, b) {
        LazyIsEager(regions, pieces, heapStart, brk, k, va, b);
      }
      EagerFills(x, FaultFill(regions, brk, va).value.bytes, va);
    }
  }

  /**
   The first touch of a segment no later one shares the page with: the rights its header asks
   for, and, where the page starts in its region, the bytes of the file.
   */
  method TouchSegment(m: Mmu, c: nat, regions: seq<Region>, ghost pieces: seq<Piece>, ghost heapStart: nat, brk: nat, ghost k: nat, va: nat)
    returns (ok: bool)
    requires m.Valid() && c in m.ctxs && c in m.eager && Built(regions, pieces, heapStart) && PathOf(va) !in m.eager[c]
    requires k < |pieces| && OnTop(pieces, k, va) && Holds(pieces[k].p, pieces[k].bias, va)
    modifies m
    ensures m.Valid() && c in m.ctxs && c in m.eager
    ensures ok ==> EntryAs(Leaf(m.W().s, c, PathOf(va)), pieces[k].p.writable, pieces[k].p.executable)
    ensures ok ==> PathOf(va) in m.eager[c] && m.eager[c][PathOf(va)].rights == Rights(true, pieces[k].p.writable)
    ensures ok && First(pieces[k].p, pieces[k].bias) <= PageOf(va) ==> SegmentBytes(pieces[k], m.eager[c][PathOf(va)].bytes, va)
  {
    SegmentFill(regions, pieces, heapStart, brk, k, va);
    ok := Touch(m, c, regions, brk, va);
  }
}
