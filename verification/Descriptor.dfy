/**
 VMSAv8-64 descriptors, level by level, as the kernel builds and reads them.

 A table word is a `bv64`; the rest of the project reasons about its decoded form,
 `Desc`.  Every valid word the kernel writes, into a user page table or into its boot
 tables, is built by one of the functions below, and one lemma per builder says what
 that word decodes to, so the decoded model loses nothing of the bit manipulation.
 */
module Descriptor {

  /** Everything in a descriptor but its type and output address. */
  datatype Attrs = Attrs(el0: bool, ro: bool, cow: bool, rest: bv64)

  /**
   The type field (bits 1:0) tells three kinds apart.  Type 3 is a next-level table at
   levels 0 to 2 and a page at level 3: the encodings of the two coincide.
   */
  datatype Desc =
    | Invalid
    | Block(pa: int, attrs: Attrs)
    | Full(pa: int, attrs: Attrs)

  function AttrsOf(w: bv64): Attrs {
    Attrs(w & 0x40 != 0, w & 0x80 != 0, w & 0x0080_0000_0000_0000 != 0, w & 0xff7f_0000_0000_0f3c)
  }

  function Decode(w: bv64): Desc {
    if w & 1 == 0 then Invalid
    else if w & 0x3 == 3 then Full((w & 0x0000_ffff_ffff_f000) as int, AttrsOf(w))
    else Block((w & 0x0000_ffff_ffff_f000) as int, AttrsOf(w))
  }

  // The words the kernel writes.

  function TableWord(pa: bv64): bv64 { pa | 3 }

  function ClonedTableWord(pa: bv64, entry: bv64): bv64 { (pa & 0x0000_ffff_ffff_f000) | (entry & !0x0000_ffff_ffff_f000) }

  function PageWord(pa: bv64, flags: bv64): bv64 { (pa & 0x0000_ffff_ffff_f000) | flags | 3 | 0x800 }

  function CowWord(entry: bv64): bv64 { (entry & !(0 as bv64)) | 0x80 | 0x0080_0000_0000_0000 }

  function UpgradedWord(entry: bv64): bv64 { (entry & !0x80 & !0x0080_0000_0000_0000) | 0 }

  function ReplacedWord(entry: bv64, pa: bv64): bv64 {
    (pa & 0x0000_ffff_ffff_f000) | (entry & !0x0000_ffff_ffff_f000 & !0x80 & !0x0080_0000_0000_0000) | 0
  }

  /** The pages and blocks of the boot tables. */
  function BootWord(pa: bv64, flags: bv64, kind: bv64): bv64 { pa | flags | kind }

  // The same operations on decoded descriptors.

  const TABLE_ATTRS := Attrs(false, false, false, 0)

  /** What an anonymous user page gets: normal memory, user read-write, never executable. */
  const USER_ATTRS := Attrs(true, false, false, 0x0060_0000_0000_0704)

  /** A user page is tagged with its ASID whatever flags it is mapped with. */
  function NonGlobal(a: Attrs): Attrs { a.(rest := a.rest | 0x800) }

  /** Bit 11: the entry is cached under the current ASID and not for everybody. */
  predicate Tagged(a: Attrs) { a.rest & 0x800 != 0 }

  lemma NonGlobalTagged(a: Attrs)
    ensures Tagged(NonGlobal(a))
  {
    TagBits(a.rest);
  }

  lemma TagBits(w: bv64)
    ensures (w | 0x800) & 0x800 == 0x800
  {
  }

  function Cow(e: Desc): Desc
    requires e != Invalid
  {
    e.(attrs := e.attrs.(ro := true, cow := true))
  }

  function Upgraded(e: Desc): Desc
    requires e != Invalid
  {
    e.(attrs := e.attrs.(ro := false, cow := false))
  }

  function Replaced(e: Desc, pa: int): Desc
    requires e != Invalid
  {
    e.(pa := pa, attrs := e.attrs.(ro := false, cow := false))
  }

  /** The write permission test of `mmu_user_access_allowed`. */
  predicate UserWritable(a: Attrs) { a.el0 && !a.ro }

  predicate UserReadable(a: Attrs) { a.el0 }

  // Each word decodes to the descriptor the model uses in its place.  The bit-level facts
  // are proved first, on words alone.

  lemma TableBits(pa: bv64)
    requires pa & !0x0000_ffff_ffff_f000 == 0
    ensures TableWord(pa) & 3 == 3
    ensures TableWord(pa) & 0x0000_ffff_ffff_f000 == pa
    ensures TableWord(pa) & 0x40 == 0 && TableWord(pa) & 0x80 == 0
    ensures TableWord(pa) & 0x0080_0000_0000_0000 == 0 && TableWord(pa) & 0xff7f_0000_0000_0f3c == 0
  {
  }

  lemma ClonedTableBits(pa: bv64, e: bv64)
    requires pa & !0x0000_ffff_ffff_f000 == 0
    ensures ClonedTableWord(pa, e) & 3 == e & 3
    ensures ClonedTableWord(pa, e) & 0x0000_ffff_ffff_f000 == pa
    ensures ClonedTableWord(pa, e) & 0x40 == e & 0x40
    ensures ClonedTableWord(pa, e) & 0x80 == e & 0x80
    ensures ClonedTableWord(pa, e) & 0x0080_0000_0000_0000 == e & 0x0080_0000_0000_0000
    ensures ClonedTableWord(pa, e) & 0xff7f_0000_0000_0f3c == e & 0xff7f_0000_0000_0f3c
  {
  }

  lemma PageBits(pa: bv64, flags: bv64)
    requires pa & !0x0000_ffff_ffff_f000 == 0
    requires flags & 0x0000_ffff_ffff_f000 == 0
    ensures PageWord(pa, flags) & 3 == 3
    ensures PageWord(pa, flags) & 0x0000_ffff_ffff_f000 == pa
    ensures PageWord(pa, flags) & 0x40 == (flags | 0x800) & 0x40
    ensures PageWord(pa, flags) & 0x80 == (flags | 0x800) & 0x80
    ensures PageWord(pa, flags) & 0x0080_0000_0000_0000 == (flags | 0x800) & 0x0080_0000_0000_0000
    ensures PageWord(pa, flags) & 0xff7f_0000_0000_0f3c == (flags | 0x800) & 0xff7f_0000_0000_0f3c
  {
  }

  lemma CowBits(e: bv64)
    ensures CowWord(e) & 3 == e & 3
    ensures CowWord(e) & 0x0000_ffff_ffff_f000 == e & 0x0000_ffff_ffff_f000
    ensures CowWord(e) & 0x40 == e & 0x40 && CowWord(e) & 0x80 != 0
    ensures CowWord(e) & 0x0080_0000_0000_0000 != 0
    ensures CowWord(e) & 0xff7f_0000_0000_0f3c == e & 0xff7f_0000_0000_0f3c
  {
  }

  lemma UpgradedBits(e: bv64)
    ensures UpgradedWord(e) & 3 == e & 3
    ensures UpgradedWord(e) & 0x0000_ffff_ffff_f000 == e & 0x0000_ffff_ffff_f000
    ensures UpgradedWord(e) & 0x40 == e & 0x40 && UpgradedWord(e) & 0x80 == 0
    ensures UpgradedWord(e) & 0x0080_0000_0000_0000 == 0
    ensures UpgradedWord(e) & 0xff7f_0000_0000_0f3c == e & 0xff7f_0000_0000_0f3c
  {
  }

  lemma ReplacedBits(e: bv64, pa: bv64)
    requires pa & !0x0000_ffff_ffff_f000 == 0
    ensures ReplacedWord(e, pa) & 3 == e & 3
    ensures ReplacedWord(e, pa) & 0x0000_ffff_ffff_f000 == pa
    ensures ReplacedWord(e, pa) & 0x40 == e & 0x40 && ReplacedWord(e, pa) & 0x80 == 0
    ensures ReplacedWord(e, pa) & 0x0080_0000_0000_0000 == 0
    ensures ReplacedWord(e, pa) & 0xff7f_0000_0000_0f3c == e & 0xff7f_0000_0000_0f3c
  {
  }

  /** Bit 0 is part of the type field. */
  lemma TypeBits(w: bv64, e: bv64)
    requires w & 3 == e & 3
    ensures w & 1 == e & 1
  {
    assert w & 1 == (w & 3) & 1;
    assert e & 1 == (e & 3) & 1;
  }

  /** Two words that agree but on the address, AP[2] and the copy-on-write bit. */
  lemma DecodesLike(w: bv64, e: bv64, pa: bv64, ro: bool, cow: bool)
    requires e & 1 != 0 && w & 1 != 0 && w & 3 == e & 3
    requires w & 0x0000_ffff_ffff_f000 == pa && w & 0x40 == e & 0x40
    requires (w & 0x80 != 0) == ro && (w & 0x0080_0000_0000_0000 != 0) == cow
    requires w & 0xff7f_0000_0000_0f3c == e & 0xff7f_0000_0000_0f3c
    ensures Decode(e) != Invalid
    ensures Decode(w) == Decode(e).(pa := pa as int, attrs := Decode(e).attrs.(ro := ro, cow := cow))
  {
  }

  lemma TableWordDecodes(pa: bv64)
    requires pa & !0x0000_ffff_ffff_f000 == 0
    ensures Decode(TableWord(pa)) == Full(pa as int, TABLE_ATTRS)
  {
    TableBits(pa);
    TypeBits(TableWord(pa), 3);
    DecodesLike(TableWord(pa), 3, pa, false, false);
  }

  lemma ClonedTableWordDecodes(pa: bv64, entry: bv64)
    requires pa & !0x0000_ffff_ffff_f000 == 0
    requires Decode(entry).Full?
    ensures Decode(ClonedTableWord(pa, entry)) == Full(pa as int, Decode(entry).attrs)
  {
    ClonedTableBits(pa, entry);
    TypeBits(ClonedTableWord(pa, entry), entry);
    DecodesLike(ClonedTableWord(pa, entry), entry, pa, Decode(entry).attrs.ro, Decode(entry).attrs.cow);
  }

  /** Page flags carry no address bits. */
  lemma PageWordDecodes(pa: bv64, flags: bv64)
    requires pa & !0x0000_ffff_ffff_f000 == 0
    requires flags & 0x0000_ffff_ffff_f000 == 0
    ensures Decode(PageWord(pa, flags)) == Full(pa as int, NonGlobal(AttrsOf(flags)))
  {
    PageWordAttrs(pa, flags);
    NonGlobalAttrs(flags);
  }

  lemma PageWordAttrs(pa: bv64, flags: bv64)
    requires pa & !0x0000_ffff_ffff_f000 == 0
    requires flags & 0x0000_ffff_ffff_f000 == 0
    ensures Decode(PageWord(pa, flags)) == Full(pa as int, AttrsOf(flags | 0x800))
  {
    PageBits(pa, flags);
    TypeBits(PageWord(pa, flags), 3);
  }

  lemma NonGlobalAttrs(flags: bv64)
    ensures AttrsOf(flags | 0x800) == NonGlobal(AttrsOf(flags))
  {
    NonGlobalBits(flags);
  }

  lemma NonGlobalBits(flags: bv64)
    ensures (flags | 0x800) & 0x40 == flags & 0x40 && (flags | 0x800) & 0x80 == flags & 0x80
    ensures (flags | 0x800) & 0x0080_0000_0000_0000 == flags & 0x0080_0000_0000_0000
    ensures (flags | 0x800) & 0xff7f_0000_0000_0f3c == (flags & 0xff7f_0000_0000_0f3c) | 0x800
  {
  }

  lemma CowWordDecodes(entry: bv64)
    requires entry & 1 != 0
    ensures Decode(entry) != Invalid
    ensures Decode(CowWord(entry)) == Cow(Decode(entry))
  {
    CowBits(entry);
    TypeBits(CowWord(entry), entry);
    DecodesLike(CowWord(entry), entry, entry & 0x0000_ffff_ffff_f000, true, true);
  }

  lemma UpgradedWordDecodes(entry: bv64)
    requires entry & 1 != 0
    ensures Decode(entry) != Invalid
    ensures Decode(UpgradedWord(entry)) == Upgraded(Decode(entry))
  {
    UpgradedBits(entry);
    TypeBits(UpgradedWord(entry), entry);
    DecodesLike(UpgradedWord(entry), entry, entry & 0x0000_ffff_ffff_f000, false, false);
  }

  lemma ReplacedWordDecodes(entry: bv64, pa: bv64)
    requires pa & !0x0000_ffff_ffff_f000 == 0
    requires entry & 1 != 0
    ensures Decode(entry) != Invalid
    ensures Decode(ReplacedWord(entry, pa)) == Replaced(Decode(entry), pa as int)
  {
    ReplacedBits(entry, pa);
    TypeBits(ReplacedWord(entry, pa), entry);
    DecodesLike(ReplacedWord(entry, pa), entry, pa, false, false);
  }

  lemma BootBits(pa: bv64, flags: bv64, kind: bv64)
    requires pa & !0x0000_ffff_ffff_f000 == 0 && flags & 0x0000_ffff_ffff_f003 == 0 && (kind == 1 || kind == 3)
    ensures BootWord(pa, flags, kind) & 3 == kind && BootWord(pa, flags, kind) & 1 == 1
    ensures BootWord(pa, flags, kind) & 0x0000_ffff_ffff_f000 == pa
    ensures BootWord(pa, flags, kind) & 0x40 == flags & 0x40 && BootWord(pa, flags, kind) & 0x80 == flags & 0x80
    ensures BootWord(pa, flags, kind) & 0x0080_0000_0000_0000 == flags & 0x0080_0000_0000_0000
    ensures BootWord(pa, flags, kind) & 0xff7f_0000_0000_0f3c == flags & 0xff7f_0000_0000_0f3c
  {
  }

  lemma BootAttrs(pa: bv64, flags: bv64, kind: bv64)
    requires pa & !0x0000_ffff_ffff_f000 == 0 && flags & 0x0000_ffff_ffff_f003 == 0 && (kind == 1 || kind == 3)
    ensures AttrsOf(BootWord(pa, flags, kind)) == AttrsOf(flags)
  {
    BootBits(pa, flags, kind);
  }

  lemma BootPageDecodes(pa: bv64, flags: bv64)
    requires pa & !0x0000_ffff_ffff_f000 == 0 && flags & 0x0000_ffff_ffff_f003 == 0
    ensures Decode(BootWord(pa, flags, 3)) == Full(pa as int, AttrsOf(flags))
  {
    BootBits(pa, flags, 3);
    BootAttrs(pa, flags, 3);
  }

  lemma BootBlockDecodes(pa: bv64, flags: bv64)
    requires pa & !0x0000_ffff_ffff_f000 == 0 && flags & 0x0000_ffff_ffff_f003 == 0
    ensures Decode(BootWord(pa, flags, 1)) == Block(pa as int, AttrsOf(flags))
  {
    BootBits(pa, flags, 1);
    BootAttrs(pa, flags, 1);
  }

  /** `USER_ATTRS` is the flag word of the fault handler's fallback. */
  lemma UserFlags()
    ensures AttrsOf(0x4 | 0x400 | 0x300 | 0x40 | 0x0040_0000_0000_0000 | 0x0020_0000_0000_0000) == USER_ATTRS
  {
    assert 0x4 | 0x400 | 0x300 | 0x40 | 0x0040_0000_0000_0000 | 0x0020_0000_0000_0000 == 0x0060_0000_0000_0744 as bv64;
  }

  /**
   The kernel tests AP[2:1] with one mask: the value 1 is user read-write and 3 is user
   read-only.  The decoded tests agree with it.
   */
  lemma AccessBits(entry: bv64)
    ensures (entry & 0xc0 == 0x40) <==> UserWritable(AttrsOf(entry))
    ensures (entry & 0xc0 == 0x40 || entry & 0xc0 == 0xc0) <==> UserReadable(AttrsOf(entry))
  {
    assert entry & 0xc0 == (entry & 0x40) | (entry & 0x80);
    assert entry & 0x40 == 0 || entry & 0x40 == 0x40;
    assert entry & 0x80 == 0 || entry & 0x80 == 0x80;
  }
}
