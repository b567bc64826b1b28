/**
 What `munmap` unmaps (`mmu_unmap_user_range`), compared with the range its caller names.
 The code clears the first entry of the level-3 table of each page and computes the end of
 the range in 64 bits.
 */
module Ranges {
  import opened AddressSpace
  import opened Coupling
  import opened Mmu
  import opened Wrappers

  /** The end of the caller's range in whole pages, beyond 2^64 if it goes there. */
  ghost function WholeEnd(va: Word, len: Word): nat {
    if len == 0 then AlignDown(va) else AlignUp(va + len)
  }

  /** Exactly the pages of the caller's range disappear. */
  ghost predicate UnmapsRange(m: map<Path, UserPage>, va: Word, len: Word) {
    forall p :: p in Cleared(m, AlignDown(va), RangeEnd(va, len)) <==> p in m && !InRange(p, AlignDown(va), WholeEnd(va, len))
  }

  /** Every mapped page of the range is the first of its two megabytes, and no first page outside is hit. */
  ghost predicate OnlyFirsts(m: map<Path, UserPage>, lo: nat, hi: nat) {
    forall p :: p in m ==> (InRange(p, lo, hi) ==> p[3] == 0) && (Hit(p, lo, hi) ==> InRange(p, lo, hi))
  }

  /** The range goes round all addresses and past its first page again. */
  ghost predicate Rounds(va: Word, len: Word) {
    WORD + AlignDown(va) < WholeEnd(va, len) < 2 * WORD
  }

  lemma EndInside(va: Word, len: Word)
    requires WholeEnd(va, len) < WORD
    ensures RangeEnd(va, len) == WholeEnd(va, len)
  {
  }

  lemma EndWraps(va: Word, len: Word)
    requires WholeEnd(va, len) >= WORD
    ensures RangeEnd(va, len) == if Rounds(va, len) then AlignDown(va) + PAGE_SIZE else AlignDown(va)
  {
    var sum, up := va + len, AlignUp(va + len);
    assert up <= AlignDown(va) + PAGE_SIZE + WORD;
    WrappedEnd(va, len);
  }

  lemma WrappedEnd(va: Word, len: Word)
    requires AlignUp(va + len) >= WORD
    ensures AlignDown(Plus(Plus(va, len), PAGE_SIZE - 1)) == if AlignUp(va + len) < 2 * WORD then AlignUp(va + len) - WORD else 0
  {
  }

  /** The table indices of a multiple of two megabytes. */
  lemma WholePath(q: nat)
    ensures PathOf(q * 0x20_0000) == [q / 0x4_0000 % 512, q / 512 % 512, q % 512, 0]
  {
    Digit0(q);
    Digit1(q);
    Digit3(q);
    assert q * 0x20_0000 / 0x20_0000 == q;
  }

  lemma Digit0(q: nat)
    ensures q * 0x20_0000 / 0x80_0000_0000 == q / 0x4_0000
  {
    var l := q / 0x4_0000;
    assert l * 0x80_0000_0000 <= q * 0x20_0000 < (l + 1) * 0x80_0000_0000;
  }

  lemma Digit1(q: nat)
    ensures q * 0x20_0000 / 0x4000_0000 == q / 512
  {
    var k := q / 512;
    assert k * 0x4000_0000 <= q * 0x20_0000 < (k + 1) * 0x4000_0000;
  }

  lemma Digit3(q: nat)
    ensures q * 0x20_0000 / 0x1000 % 512 == 0
  {
    assert q * 0x20_0000 / 0x1000 == q * 512;
  }

  lemma FirstPath(lo: nat)
    ensures var q := lo / 0x20_0000; FirstOf(PathOf(lo)) == [q / 0x4_0000 % 512, q / 512 % 512, q % 512, 0]
  {
    assert lo / 0x4000_0000 == lo / 0x20_0000 / 512;
    assert lo / 0x80_0000_0000 == lo / 0x20_0000 / 0x4_0000;
  }

  /** A whole address space later the indices are the same. */
  lemma SpanLater(q: nat)
    ensures PathOf((q + 0x800_0000) * 0x20_0000) == PathOf(q * 0x20_0000)
  {
    WholePath(q);
    WholePath(q + 0x800_0000);
    SpanDigits(q);
  }

  lemma SpanDigits(q: nat)
    ensures (q + 0x800_0000) / 0x4_0000 % 512 == q / 0x4_0000 % 512
    ensures (q + 0x800_0000) / 512 % 512 == q / 512 % 512
    ensures (q + 0x800_0000) % 512 == q % 512
  {
    SpanQuotients(q);
    Rounds512(q / 0x4_0000, 1);
    Rounds512(q / 512, 512);
    Rounds512(q, 0x4_0000);
  }

  lemma SpanQuotients(q: nat)
    ensures (q + 0x800_0000) / 0x4_0000 == q / 0x4_0000 + 512 && (q + 0x800_0000) / 512 == q / 512 + 512 * 512
  {
  }

  lemma Rounds512(a: nat, k: nat)
    ensures (a + 512 * k) % 512 == a % 512
  {
  }

  /** Going all the way round, the range holds the first page of the two megabytes it began in. */
  lemma FirstInRound(va: Word, len: Word)
    requires Rounds(va, len)
    ensures InRange(FirstOf(PathOf(AlignDown(va))), AlignDown(va), WholeEnd(va, len))
  {
    var lo := AlignDown(va);
    var q := lo / 0x20_0000;
    FirstPath(lo);
    WholePath(q);
    SpanLater(q);
    PageOfSpan(q);
    assert lo < (q + 1) * 0x20_0000;
    assert PageIn((q + 0x800_0000) * 0x20_0000, lo, WholeEnd(va, len));
  }

  lemma PageOfSpan(q: nat)
    ensures (q + 0x800_0000) * 0x20_0000 == q * 0x20_0000 + 0x1_0000_0000_0000
    ensures (q + 0x800_0000) * 0x20_0000 % 4096 == 0
  {
    assert (q + 0x800_0000) * 0x20_0000 == (q + 0x800_0000) * 512 * 4096;
  }

  lemma FirstsExact(m: map<Path, UserPage>, lo: nat, hi: nat)
    ensures (forall p :: p in Cleared(m, lo, hi) <==> p in m && !InRange(p, lo, hi)) <==> OnlyFirsts(m, lo, hi)
  {
    forall p | InRange(p, lo, hi) ensures |p| == 4 && (p[3] == 0 <==> FirstOf(p) == p) && (p[3] == 0 ==> Hit(p, lo, hi)) {
      var x: nat :| PageIn(x, lo, hi) && p == PathOf(x);
      assert p == p[..3] + [p[3]];
    }
    forall p | Hit(p, lo, hi) ensures |p| == 4 && p[3] == 0 {
      var x: nat :| PageIn(x, lo, hi) && p == FirstOf(PathOf(x));
    }
    if forall p :: p in Cleared(m, lo, hi) <==> p in m && !InRange(p, lo, hi) {
      forall p | p in m ensures (InRange(p, lo, hi) ==> p[3] == 0) && (Hit(p, lo, hi) ==> InRange(p, lo, hi)) {
        assert p in Cleared(m, lo, hi) <==> p in m && !InRange(p, lo, hi);
      }
    }
  }

  lemma OnePageHit(p: Path, lo: nat)
    requires lo % PAGE_SIZE == 0
    ensures Hit(p, lo, lo + PAGE_SIZE) <==> p == FirstOf(PathOf(lo))
    ensures !Hit(p, lo, lo)
  {
    HitMore(lo, lo, p);
  }

  /**
   `munmap` unmaps exactly its caller's range if and only if: the range ends below 2^64, every
   mapped page in it is the first of its two megabytes and no first page outside is hit; or it
   ends beyond and no page in it is mapped, but perhaps the one first page a range that goes
   all the way round does clear.
   */
  lemma RangeExact(m: map<Path, UserPage>, va: Word, len: Word)
    ensures UnmapsRange(m, va, len) <==>
      if WholeEnd(va, len) < WORD then OnlyFirsts(m, AlignDown(va), WholeEnd(va, len))
      else forall p :: p in m && InRange(p, AlignDown(va), WholeEnd(va, len)) ==> Rounds(va, len) && p == FirstOf(PathOf(AlignDown(va)))
  {
    var lo, hi := AlignDown(va), WholeEnd(va, len);
    if hi < WORD {
      EndInside(va, len);
      FirstsExact(m, lo, hi);
    } else {
      EndWraps(va, len);
      forall p ensures Hit(p, lo, RangeEnd(va, len)) <==> Rounds(va, len) && p == FirstOf(PathOf(lo)) {
        OnePageHit(p, lo);
      }
      WrapExact(m, va, len);
    }
  }

  lemma WrapExact(m: map<Path, UserPage>, va: Word, len: Word)
    requires forall p :: Hit(p, AlignDown(va), RangeEnd(va, len)) <==> Rounds(va, len) && p == FirstOf(PathOf(AlignDown(va)))
    ensures UnmapsRange(m, va, len) <==>
      forall p :: p in m && InRange(p, AlignDown(va), WholeEnd(va, len)) ==> Rounds(va, len) && p == FirstOf(PathOf(AlignDown(va)))
  {
    if Rounds(va, len) {
      FirstInRound(va, len);
    }
    if UnmapsRange(m, va, len) {
      forall p | p in m && InRange(p, AlignDown(va), WholeEnd(va, len)) ensures Rounds(va, len) && p == FirstOf(PathOf(AlignDown(va))) {
        assert p !in Cleared(m, AlignDown(va), RangeEnd(va, len));
      }
    }
  }

  /** Unmapping the second page of a heap unmaps the first. */
  lemma WrongPageUnmapped(a: UserPage, b: UserPage)
    ensures PathOf(0x1000_0000) != PathOf(0x1000_1000)
    ensures var m := map[PathOf(0x1000_0000) := a, PathOf(0x1000_1000) := b];
      Cleared(m, 0x1000_1000, RangeEnd(0x1000_1000, 0x1000)) == map[PathOf(0x1000_1000) := b] && !UnmapsRange(m, 0x1000_1000, 0x1000)
  {
    var first, second := PathOf(0x1000_0000), PathOf(0x1000_1000);
    assert first == [0, 0, 128, 0] && second == [0, 0, 128, 1];
    assert RangeEnd(0x1000_1000, 0x1000) == 0x1000_2000 == WholeEnd(0x1000_1000, 0x1000);
    assert PageIn(0x1000_1000, 0x1000_1000, 0x1000_2000) && FirstOf(second) == first;
    assert InRange(second, 0x1000_1000, 0x1000_2000);
    forall x: nat | PageIn(x, 0x1000_1000, 0x1000_2000) ensures x == 0x1000_1000 {
    }
  }

  /** A range that ends at 2^64 unmaps nothing, though its one page is the first of its two megabytes. */
  lemma WrappedRangeKept(a: UserPage, va: Word, len: Word)
    requires va + len == WORD && va > 0 && va % 0x20_0000 == 0
    ensures var m := map[PathOf(va) := a];
      && Cleared(m, va, RangeEnd(va, len)) == m && InRange(PathOf(va), va, WholeEnd(va, len))
      && OnlyFirsts(m, va, WholeEnd(va, len)) && !UnmapsRange(m, va, len)
  {
    var m := map[PathOf(va) := a];
    WrappedNumbers(va, len);
    assert PageIn(va, va, WORD);
    OnePageHit(PathOf(va), va);
    assert Cleared(m, va, va) == m;
    assert PathOf(va) in Cleared(m, va, va);
  }

  lemma WrappedNumbers(va: Word, len: Word)
    requires va + len == WORD && va > 0 && va % 0x20_0000 == 0
    ensures PathOf(va)[3] == 0 && AlignDown(va) == va == RangeEnd(va, len) && WholeEnd(va, len) == WORD
  {
    WholePath(va / 0x20_0000);
    assert va % 4096 == 0;
    UpWord();
    EndWraps(va, len);
  }

  lemma UpWord()
    ensures AlignUp(0x1_0000_0000_0000_0000) == 0x1_0000_0000_0000_0000
  {
    assert (0x1_0000_0000_0000_0000 + 4095) % 4096 == 4095;
  }
}
