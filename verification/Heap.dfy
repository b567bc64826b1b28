/**
 The kernel heap (`heap.c`): arenas of whole pages, block headers linked through memory,
 and byte counters.  Headers are nodes at their addresses; `tiles` is what they spell.
 The physical pages come from outside, as the argument `grown`.
 */
module Heap {
  import opened HeapTiles
  import opened Wrappers

  datatype Node = Node(size: nat, free: bool, next: int, prev: int)
  datatype Arena = Arena(base: int, pages: nat)

  type Mem = map<int, Node>

  function End(a: Arena): int { a.base + a.pages * PAGE_SIZE }

  /** Address of header `i`. */
  ghost function At(base: int, bs: seq<Block>, i: nat): int
    requires i <= |bs|
  {
    base + FIRST + Bytes(bs[..i])
  }

  ghost function NodeAt(base: int, bs: seq<Block>, i: nat): Node
    requires i < |bs|
  {
    Node(bs[i].size, bs[i].free,
         if i + 1 < |bs| then At(base, bs, i + 1) else 0,
         if i > 0 then At(base, bs, i - 1) else 0)
  }

  ghost predicate HasNode(mem: Mem, base: int, bs: seq<Block>, i: nat)
    requires i < |bs|
  {
    At(base, bs, i) in mem && mem[At(base, bs, i)] == NodeAt(base, bs, i)
  }

  /** The headers in memory spell the blocks, in both directions. */
  ghost predicate Spells(mem: Mem, base: int, bs: seq<Block>) {
    forall i :: 0 <= i < |bs| ==> HasNode(mem, base, bs, i)
  }

  ghost predicate SameOutside(mem: Mem, mem': Mem, lo: int, hi: int) {
    forall x :: !(lo <= x < hi) ==> (x in mem <==> x in mem') && (x in mem ==> mem[x] == mem'[x])
  }

  // ---------------------------------------------------------------- addresses

  lemma Next(base: int, bs: seq<Block>, i: nat)
    requires i < |bs|
    ensures At(base, bs, i + 1) == At(base, bs, i) + HEADER + bs[i].size
  {
    assert bs[..i + 1][..i] == bs[..i];
  }

  lemma {:induction false} Ascending(base: int, bs: seq<Block>, i: nat, j: nat)
    requires i < j <= |bs|
    ensures At(base, bs, i) + HEADER + bs[i].size <= At(base, bs, j)
    decreases j - i
  {
    Next(base, bs, i);
    if i + 1 < j {
      Ascending(base, bs, i + 1, j);
    }
  }

  /** Headers and payloads lie inside the arena, in order and apart. */
  lemma Inside(base: int, bs: seq<Block>, i: nat)
    requires i < |bs|
    ensures base + FIRST <= At(base, bs, i) && At(base, bs, i) + HEADER + bs[i].size <= base + FIRST + Bytes(bs)
  {
    Ascending(base, bs, i, |bs|);
    assert bs[..|bs|] == bs;
  }

  /** A header's address tells which one it is. */
  lemma SameIndex(base: int, bs: seq<Block>, i: nat, j: nat)
    requires i < |bs| && j < |bs| && At(base, bs, i) == At(base, bs, j)
    ensures i == j
  {
    if i < j {
      Ascending(base, bs, i, j);
    } else if j < i {
      Ascending(base, bs, j, i);
    }
  }

  // ---------------------------------------------------------------- splitting

  lemma SplitAt(base: int, bs: seq<Block>, i: nat, size: nat, j: nat)
    requires i < |bs| && bs[i].free && bs[i].size >= size + MIN_SPLIT && j <= |bs| + 1
    ensures |Split(bs, i, size)| == |bs| + 1
    ensures j <= i ==> At(base, Split(bs, i, size), j) == At(base, bs, j)
    ensures j == i + 1 ==> At(base, Split(bs, i, size), j) == At(base, bs, i) + HEADER + size
    ensures j > i + 1 ==> At(base, Split(bs, i, size), j) == At(base, bs, j - 1)
  {
    var s := Split(bs, i, size);
    if j <= i {
      assert s[..j] == bs[..j];
    } else if j == i + 1 {
      assert s[..i] == bs[..i];
      Next(base, s, i);
    } else {
      assert s[..j] == Split(bs[..j - 1], i, size);
      SplitSums(bs[..j - 1], i, size);
    }
  }

  /** What the code writes when it splits the block at `block`. */
  function SplitMem(mem: Mem, block: int, size: nat): Mem
    requires block in mem && mem[block].size >= size + MIN_SPLIT
  {
    var n := mem[block];
    var tail := block + HEADER + size;
    var m1 := mem[tail := Node(n.size - size - HEADER, true, n.next, block)];
    var m2 := if n.next != 0 && n.next in m1 then m1[n.next := m1[n.next].(prev := tail)] else m1;
    m2[block := n.(size := size, next := tail)]
  }

  ghost predicate CanSplit(mem: Mem, base: int, bs: seq<Block>, i: nat, size: nat) {
    Spells(mem, base, bs) && base > 0 && i < |bs| && bs[i].free && bs[i].size >= size + MIN_SPLIT
  }

  lemma SplitBefore(mem: Mem, base: int, bs: seq<Block>, i: nat, size: nat, j: nat)
    requires CanSplit(mem, base, bs, i, size) && j < i && HasNode(mem, base, bs, i)
    ensures HasNode(SplitMem(mem, At(base, bs, i), size), base, Split(bs, i, size), j)
  {
    assert HasNode(mem, base, bs, j);
    SplitAt(base, bs, i, size, j);
    SplitAt(base, bs, i, size, j + 1);
    if j > 0 {
      SplitAt(base, bs, i, size, j - 1);
    }
    Ascending(base, bs, j, i);
    Next(base, bs, i);
  }

  lemma SplitHere(mem: Mem, base: int, bs: seq<Block>, i: nat, size: nat)
    requires CanSplit(mem, base, bs, i, size) && HasNode(mem, base, bs, i)
    ensures |Split(bs, i, size)| == |bs| + 1
    ensures HasNode(SplitMem(mem, At(base, bs, i), size), base, Split(bs, i, size), i)
    ensures HasNode(SplitMem(mem, At(base, bs, i), size), base, Split(bs, i, size), i + 1)
  {
    SplitAt(base, bs, i, size, i);
    SplitAt(base, bs, i, size, i + 1);
    SplitAt(base, bs, i, size, i + 2);
    if i > 0 {
      SplitAt(base, bs, i, size, i - 1);
    }
    Next(base, bs, i);
  }

  lemma SplitElsewhere(mem: Mem, block: int, size: nat, x: int)
    requires block in mem && mem[block].size >= size + MIN_SPLIT && x in mem
    requires x != block && x != block + HEADER + size
    ensures x in SplitMem(mem, block, size)
    ensures SplitMem(mem, block, size)[x] ==
      if x == mem[block].next && x != 0 then mem[x].(prev := block + HEADER + size) else mem[x]
  {
  }

  lemma SplitAfter(mem: Mem, base: int, bs: seq<Block>, i: nat, size: nat, j: nat)
    requires CanSplit(mem, base, bs, i, size) && i + 1 < j < |bs| + 1 && HasNode(mem, base, bs, i)
    ensures |Split(bs, i, size)| == |bs| + 1
    ensures HasNode(SplitMem(mem, At(base, bs, i), size), base, Split(bs, i, size), j)
  {
    assert HasNode(mem, base, bs, j - 1);
    Next(base, bs, i);
    Inside(base, bs, i + 1);
    if j > i + 2 {
      Ascending(base, bs, i + 1, j - 1);
    }
    SplitElsewhere(mem, At(base, bs, i), size, At(base, bs, j - 1));
    SplitAt(base, bs, i, size, j - 1);
    SplitAt(base, bs, i, size, j);
    SplitAt(base, bs, i, size, j + 1);
  }

  lemma SplitSpells(mem: Mem, base: int, bs: seq<Block>, i: nat, size: nat)
    requires CanSplit(mem, base, bs, i, size)
    ensures HasNode(mem, base, bs, i)
    ensures Spells(SplitMem(mem, At(base, bs, i), size), base, Split(bs, i, size))
    ensures SameOutside(mem, SplitMem(mem, At(base, bs, i), size), base, base + FIRST + Bytes(bs))
  {
    assert HasNode(mem, base, bs, i);
    SplitHere(mem, base, bs, i, size);
    forall j | 0 <= j < |bs| + 1 ensures HasNode(SplitMem(mem, At(base, bs, i), size), base, Split(bs, i, size), j) {
      if j < i {
        SplitBefore(mem, base, bs, i, size, j);
      } else if j > i + 1 {
        SplitAfter(mem, base, bs, i, size, j);
      }
    }
    Inside(base, bs, i);
    if i + 1 < |bs| {
      Inside(base, bs, i + 1);
    }
  }

  // ---------------------------------------------------------------- joining

  lemma JoinAt(base: int, bs: seq<Block>, i: nat, j: nat)
    requires i + 1 < |bs| && bs[i].free && bs[i + 1].free && j < |bs|
    ensures |Joined(bs, i)| == |bs| - 1
    ensures At(base, Joined(bs, i), j) == if j <= i then At(base, bs, j) else At(base, bs, j + 1)
  {
    var s := Joined(bs, i);
    if j <= i {
      assert s[..j] == bs[..j];
    } else {
      assert s[..j] == Joined(bs[..j + 1], i);
      JoinedSums(bs[..j + 1], i);
    }
  }

  /** What the code writes when the block at `block` swallows the one after it. */
  function JoinMem(mem: Mem, block: int): Mem
    requires block in mem && mem[block].next in mem
  {
    var n := mem[block];
    var gone := mem[n.next];
    var m1 := mem[block := n.(size := n.size + HEADER + gone.size, next := gone.next)];
    if gone.next != 0 && gone.next in m1 then m1[gone.next := m1[gone.next].(prev := block)] else m1
  }

  ghost predicate CanJoin(mem: Mem, base: int, bs: seq<Block>, i: nat) {
    Spells(mem, base, bs) && base > 0 && i + 1 < |bs| && bs[i].free && bs[i + 1].free
  }

  lemma JoinBefore(mem: Mem, base: int, bs: seq<Block>, i: nat, j: nat)
    requires CanJoin(mem, base, bs, i) && j <= i
    requires HasNode(mem, base, bs, i) && HasNode(mem, base, bs, i + 1)
    ensures HasNode(JoinMem(mem, At(base, bs, i)), base, Joined(bs, i), j)
  {
    if i + 2 < |bs| {
      assert HasNode(mem, base, bs, i + 2);
      Ascending(base, bs, j, i + 2);
    }
    if j < i {
      assert HasNode(mem, base, bs, j);
      Ascending(base, bs, j, i);
    }
    JoinAt(base, bs, i, j);
    JoinAt(base, bs, i, j + 1);
    if j > 0 {
      JoinAt(base, bs, i, j - 1);
    }
  }

  lemma JoinAfter(mem: Mem, base: int, bs: seq<Block>, i: nat, j: nat)
    requires CanJoin(mem, base, bs, i) && i < j < |bs| - 1
    requires HasNode(mem, base, bs, i) && HasNode(mem, base, bs, i + 1)
    ensures |Joined(bs, i)| == |bs| - 1
    ensures HasNode(JoinMem(mem, At(base, bs, i)), base, Joined(bs, i), j)
  {
    assert HasNode(mem, base, bs, i + 2);
    assert HasNode(mem, base, bs, j + 1);
    Ascending(base, bs, i, j + 1);
    Inside(base, bs, i + 2);
    if j > i + 1 {
      Ascending(base, bs, i + 2, j + 1);
    }
    JoinElsewhere(mem, At(base, bs, i), At(base, bs, j + 1));
    JoinAt(base, bs, i, j - 1);
    JoinAt(base, bs, i, j);
    JoinAt(base, bs, i, j + 1);
  }

  lemma JoinElsewhere(mem: Mem, block: int, x: int)
    requires block in mem && mem[block].next in mem && x in mem && x != block
    ensures x in JoinMem(mem, block)
    ensures JoinMem(mem, block)[x] == if x == mem[mem[block].next].next && x != 0 then mem[x].(prev := block) else mem[x]
  {
  }

  lemma JoinSpells(mem: Mem, base: int, bs: seq<Block>, i: nat)
    requires CanJoin(mem, base, bs, i)
    ensures HasNode(mem, base, bs, i) && HasNode(mem, base, bs, i + 1)
    ensures Spells(JoinMem(mem, At(base, bs, i)), base, Joined(bs, i))
    ensures SameOutside(mem, JoinMem(mem, At(base, bs, i)), base, base + FIRST + Bytes(bs))
  {
    assert HasNode(mem, base, bs, i) && HasNode(mem, base, bs, i + 1);
    forall j | 0 <= j < |bs| - 1 ensures HasNode(JoinMem(mem, At(base, bs, i)), base, Joined(bs, i), j) {
      if j <= i {
        JoinBefore(mem, base, bs, i, j);
      } else {
        JoinAfter(mem, base, bs, i, j);
      }
    }
    Inside(base, bs, i);
    if i + 2 < |bs| {
      Inside(base, bs, i + 2);
    }
  }

  // ---------------------------------------------------------------- marking

  lemma MarkAt(base: int, bs: seq<Block>, i: nat, free: bool, j: nat)
    requires i < |bs| && j <= |bs|
    ensures At(base, Mark(bs, i, free), j) == At(base, bs, j)
  {
    var m := Mark(bs, i, free);
    if j <= i {
      assert m[..j] == bs[..j];
    } else if bs[i].free == free {
      assert m == bs;
    } else {
      assert m[..j] == Mark(bs[..j], i, free);
      MarkSums(bs[..j], i, free);
    }
  }

  function MarkMem(mem: Mem, block: int, free: bool): Mem
    requires block in mem
  {
    mem[block := mem[block].(free := free)]
  }

  lemma MarkNode(mem: Mem, base: int, bs: seq<Block>, i: nat, free: bool, j: nat)
    requires Spells(mem, base, bs) && i < |bs| && j < |bs| && HasNode(mem, base, bs, i)
    ensures HasNode(MarkMem(mem, At(base, bs, i), free), base, Mark(bs, i, free), j)
  {
    assert HasNode(mem, base, bs, j);
    MarkAt(base, bs, i, free, j);
    MarkAt(base, bs, i, free, j + 1);
    if j > 0 {
      MarkAt(base, bs, i, free, j - 1);
    }
    if At(base, bs, j) == At(base, bs, i) {
      SameIndex(base, bs, i, j);
    }
  }

  lemma MarkSpells(mem: Mem, base: int, bs: seq<Block>, i: nat, free: bool)
    requires Spells(mem, base, bs) && i < |bs|
    ensures HasNode(mem, base, bs, i)
    ensures Spells(MarkMem(mem, At(base, bs, i), free), base, Mark(bs, i, free))
    ensures SameOutside(mem, MarkMem(mem, At(base, bs, i), free), base, base + FIRST + Bytes(bs))
  {
    assert HasNode(mem, base, bs, i);
    forall j | 0 <= j < |bs| ensures HasNode(MarkMem(mem, At(base, bs, i), free), base, Mark(bs, i, free), j) {
      MarkNode(mem, base, bs, i, free, j);
    }
    Inside(base, bs, i);
  }

  // ---------------------------------------------------------------- arenas

  ghost predicate ArenaOk(mem: Mem, a: Arena, bs: seq<Block>) {
    && a.base > 0 && a.base % PAGE_SIZE == 0 && a.pages > 0
    && Tidy(bs) && FIRST + Bytes(bs) == a.pages * PAGE_SIZE
    && Spells(mem, a.base, bs)
  }

  /** Writes elsewhere do not disturb an arena. */
  lemma ArenaFrame(mem: Mem, mem': Mem, a: Arena, bs: seq<Block>, lo: int, hi: int)
    requires ArenaOk(mem, a, bs) && SameOutside(mem, mem', lo, hi) && (End(a) <= lo || hi <= a.base)
    ensures ArenaOk(mem', a, bs)
  {
    forall i | 0 <= i < |bs| ensures HasNode(mem', a.base, bs, i) {
      assert HasNode(mem, a.base, bs, i);
      Inside(a.base, bs, i);
    }
  }

  /** Every payload is 16-byte aligned and inside its arena; distinct payloads do not overlap. */
  lemma Payloads(mem: Mem, a: Arena, bs: seq<Block>, i: nat, j: nat)
    requires ArenaOk(mem, a, bs) && i < |bs| && j < |bs|
    ensures var p := At(a.base, bs, i) + HEADER;
      p % ALIGN == 0 && a.base < p && p + bs[i].size <= End(a)
    ensures i < j ==> At(a.base, bs, i) + HEADER + bs[i].size <= At(a.base, bs, j)
  {
    Inside(a.base, bs, i);
    AlignedAt(a.base, bs, i);
    if i < j {
      Ascending(a.base, bs, i, j);
    }
  }

  lemma AlignedAt(base: int, bs: seq<Block>, i: nat)
    requires Tidy(bs) && i <= |bs| && base % PAGE_SIZE == 0
    ensures At(base, bs, i) % ALIGN == 0
  {
    AlignedBytes(bs, i);
    AlignedSum(base, Bytes(bs[..i]));
  }

  lemma {:induction false} AlignedBytes(bs: seq<Block>, i: nat)
    requires Tidy(bs) && i <= |bs|
    ensures Bytes(bs[..i]) % ALIGN == 0
  {
    if i > 0 {
      AlignedBytes(bs, i - 1);
      assert bs[..i][..i - 1] == bs[..i - 1];
      assert SizeOk(bs[i - 1]);
    }
  }

  lemma AlignedSum(base: int, bytes: nat)
    requires base % 4096 == 0 && bytes % 16 == 0
    ensures (base + 48 + bytes) % 16 == 0
  {
  }

  ghost predicate Apart(a: Arena, b: Arena) { End(a) <= b.base || End(b) <= a.base }

  ghost predicate HeapInv(mem: Mem, arenas: seq<Arena>, tiles: seq<seq<Block>>) {
    && |tiles| == |arenas|
    && (forall k :: 0 <= k < |arenas| ==> ArenaOk(mem, arenas[k], tiles[k]))
    && (forall j, k :: 0 <= j < k < |arenas| ==> Apart(arenas[j], arenas[k]))
  }

  lemma HeapUpdate(mem: Mem, mem': Mem, arenas: seq<Arena>, tiles: seq<seq<Block>>, k: nat, bs: seq<Block>)
    requires HeapInv(mem, arenas, tiles) && k < |arenas| && ArenaOk(mem', arenas[k], bs)
    requires SameOutside(mem, mem', arenas[k].base, End(arenas[k]))
    ensures HeapInv(mem', arenas, tiles[k := bs])
  {
    forall j | 0 <= j < |arenas| ensures ArenaOk(mem', arenas[j], tiles[k := bs][j]) {
      if j != k {
        assert j < k ==> Apart(arenas[j], arenas[k]);
        assert k < j ==> Apart(arenas[k], arenas[j]);
        ArenaFrame(mem, mem', arenas[j], tiles[j], arenas[k].base, End(arenas[k]));
      }
    }
  }

  // ---------------------------------------------------------------- counters

  /** Free bytes an arena adds to the counter: its free payload and a header for every block but one. */
  function Reported(bs: seq<Block>): int { Payload(bs) + HEADER * (|bs| - 1) }

  function TotalUsed(ts: seq<seq<Block>>): nat {
    if ts == [] then 0 else Used(ts[0]) + TotalUsed(ts[1..])
  }

  function TotalReported(ts: seq<seq<Block>>): int {
    if ts == [] then 0 else Reported(ts[0]) + TotalReported(ts[1..])
  }

  lemma {:induction false} TotalsUpdate(ts: seq<seq<Block>>, k: nat, bs: seq<Block>)
    requires k < |ts|
    ensures TotalUsed(ts[k := bs]) == TotalUsed(ts) - Used(ts[k]) + Used(bs)
    ensures TotalReported(ts[k := bs]) == TotalReported(ts) - Reported(ts[k]) + Reported(bs)
  {
    if k == 0 {
      assert ts[k := bs][1..] == ts[1..];
    } else {
      assert ts[k := bs][1..] == ts[1..][k - 1 := bs];
      TotalsUpdate(ts[1..], k - 1, bs);
    }
  }

  lemma TotalsPush(ts: seq<seq<Block>>, bs: seq<Block>)
    ensures TotalUsed([bs] + ts) == Used(bs) + TotalUsed(ts)
    ensures TotalReported([bs] + ts) == Reported(bs) + TotalReported(ts)
  {
    assert ([bs] + ts)[1..] == ts;
  }

  /** The blocks of a new arena. */
  function Whole(pages: nat): seq<Block>
    requires pages > 0
  {
    [Block(pages * PAGE_SIZE - FIRST - HEADER, true)]
  }

  /**
   `kernel_heap_pages_for_size`: the pages an allocation needs, were it alone.  Both sums are
   64-bit; past 2^64 they ask for no page, or for one page that cannot serve the request.
   */
  function PagesFor(size: Word): (n: nat)
    ensures Aligned(size) < WORD - FIRST - HEADER - PAGE_SIZE ==> n > 0
    ensures n > 0 ==> (FIRST + HEADER + Aligned(size) <= n * PAGE_SIZE <==> Aligned(size) < WORD - FIRST - HEADER)
    ensures n > 0 ==> (n - 1) * PAGE_SIZE < (FIRST + HEADER + Aligned(size)) % WORD
    ensures n == 0 <==> WORD - PAGE_SIZE < FIRST + HEADER + Aligned(size) <= WORD
  {
    Plus(Plus(80, Aligned(size)), 4095) / 4096
  }

  class Heap {
    var mem: Mem
    var arenas: seq<Arena>             // the newest first
    var pagesUsed: nat
    var freeSpace: int
    var usedSpace: int
    var allocations: nat
    var failed: nat
    ghost var tiles: seq<seq<Block>>

    ghost predicate Valid()
      reads this
    {
      HeapInv(mem, arenas, tiles) && usedSpace == TotalUsed(tiles) && freeSpace == TotalReported(tiles)
    }

    constructor ()
      ensures Valid() && arenas == [] && tiles == []
    {
      mem, arenas, tiles, pagesUsed, freeSpace, usedSpace, allocations, failed := map[], [], [], 0, 0, 0, 0, 0;
    }

    /** `kernel_heap_split_block`. */
    method SplitBlock(block: int, size: nat, ghost base: int, ghost bs: seq<Block>, ghost i: nat)
      requires Spells(mem, base, bs) && base > 0 && i < |bs| && bs[i].free && bs[i].size >= size
      requires block == At(base, bs, i)
      modifies this`mem
      ensures Spells(mem, base, Split(bs, i, size))
      ensures SameOutside(old(mem), mem, base, base + FIRST + Bytes(bs))
    {
      assert HasNode(mem, base, bs, i);
      var n := mem[block];
      if n.size < size + MIN_SPLIT {
        return;
      }
      SplitSpells(mem, base, bs, i, size);
      if i + 1 < |bs| {
        assert HasNode(mem, base, bs, i + 1);
      }
      var tail := block + HEADER + size;
      mem := mem[tail := Node(n.size - size - HEADER, true, n.next, block)];
      if n.next != 0 {
        mem := mem[n.next := mem[n.next].(prev := tail)];
      }
      mem := mem[block := n.(size := size, next := tail)];
      assert mem == SplitMem(old(mem), block, size);
    }

    /** Split and mark: block `i` of arena `k` is handed out. */
    method TakeBlock(block: int, size: nat, ghost k: nat, ghost i: nat) returns (ptr: int)
      requires Valid() && k < |arenas| && i < |tiles[k]| && block == At(arenas[k].base, tiles[k], i)
      requires tiles[k][i].free && tiles[k][i].size >= size && size % ALIGN == 0
      modifies this
      ensures Valid() && arenas == old(arenas) && pagesUsed == old(pagesUsed) && failed == old(failed)
      ensures tiles == old(tiles)[k := Taken(old(tiles)[k], i, size)] && ptr == block + HEADER
      ensures allocations == old(allocations) + 1
    {
      ghost var base, bs := arenas[k].base, tiles[k];
      TakenTidy(bs, i, size);
      SplitSums(bs, i, size);
      SplitBlock(block, size, base, bs, i);
      ghost var sp := Split(bs, i, size);
      SplitKeepsAt(base, bs, i, size);
      MarkSpells(mem, base, sp, i, false);
      mem := mem[block := mem[block].(free := false)];
      assert mem[block].size == sp[i].size;
      freeSpace := freeSpace - mem[block].size;
      usedSpace := usedSpace + mem[block].size;
      allocations := allocations + 1;
      ghost var r := Taken(bs, i, size);
      HeapUpdate(old(mem), mem, arenas, tiles, k, r);
      TotalsUpdate(tiles, k, r);
      tiles := tiles[k := r];
      ptr := block + HEADER;
    }

    /** `kernel_heap_allocate_from_arena`: first fit in arena `k`. */
    method AllocateFrom(k: nat, size: nat) returns (ptr: int)
      requires Valid() && k < |arenas| && size % ALIGN == 0
      modifies this
      ensures Valid() && arenas == old(arenas) && pagesUsed == old(pagesUsed) && failed == old(failed)
      ensures ptr == 0 <==> Fit(old(tiles)[k], size).None?
      ensures ptr == 0 ==> tiles == old(tiles) && mem == old(mem) && allocations == old(allocations)
      ensures ptr != 0 ==> var i := Fit(old(tiles)[k], size).value;
        && tiles == old(tiles)[k := Taken(old(tiles)[k], i, size)] && allocations == old(allocations) + 1
        && ptr == At(arenas[k].base, old(tiles)[k], i) + HEADER
    {
      ghost var base, bs := arenas[k].base, tiles[k];
      var block := arenas[k].base + FIRST;
      ghost var i := 0;
      assert bs[..0] == [];
      while block != 0
        invariant 0 <= i <= |bs| && Valid() && arenas == old(arenas) && tiles == old(tiles) && mem == old(mem)
        invariant pagesUsed == old(pagesUsed) && failed == old(failed) && allocations == old(allocations)
        invariant block == if i < |bs| then At(base, bs, i) else 0
        invariant forall j :: 0 <= j < i ==> !(bs[j].free && bs[j].size >= size)
        decreases |bs| - i
      {
        assert HasNode(mem, base, bs, i);
        var n := mem[block];
        if n.free && n.size >= size {
          Inside(base, bs, i);
          ptr := TakeBlock(block, size, k, i);
          return;
        }
        i := i + 1;
        block := n.next;
        if i < |bs| {
          Inside(base, bs, i);
        }
      }
      ptr := 0;
    }

    /** `kernel_heap_add_arena`: `grown` is the address of the new pages, 0 for none. */
    method AddArena(pages: nat, grown: int) returns (ok: bool)
      requires Valid()
      requires grown != 0 ==> pages > 0 && Spare(arenas, grown, pages)
      modifies this
      ensures Valid() && usedSpace == old(usedSpace) && allocations == old(allocations)
      ensures ok <==> grown != 0
      ensures !ok ==> arenas == old(arenas) && tiles == old(tiles) && failed == old(failed) + 1
      ensures ok ==> arenas == [Arena(grown, pages)] + old(arenas) && failed == old(failed)
      ensures ok ==> tiles == [Whole(pages)] + old(tiles)
      ensures pagesUsed == old(pagesUsed) + if ok then pages else 0
    {
      if grown == 0 {
        failed := failed + 1;
        return false;
      }
      Seed(pages, grown);
      ok := true;
    }

    /** The new arena's header and its one free block. */
    method Seed(pages: nat, base: int)
      requires Valid() && pages > 0 && Spare(arenas, base, pages)
      modifies this
      ensures Valid() && usedSpace == old(usedSpace) && allocations == old(allocations) && failed == old(failed)
      ensures arenas == [Arena(base, pages)] + old(arenas)
      ensures tiles == [Whole(pages)] + old(tiles) && pagesUsed == old(pagesUsed) + pages
    {
      var usable := pages * PAGE_SIZE - FIRST - HEADER;
      NewArena(mem, arenas, tiles, Arena(base, pages));
      TotalsPush(tiles, Whole(pages));
      One(Block(usable, true));
      pagesUsed := pagesUsed + pages;
      freeSpace := freeSpace + usable;
      mem := mem[base + FIRST := Node(usable, true, 0, 0)];
      arenas := [Arena(base, pages)] + arenas;
      tiles := [Whole(pages)] + tiles;
    }

    /**
     `kmalloc`.  The first arena with a fitting free block serves the request; otherwise the
     heap grows and tries the new arena.
     */
    method Kmalloc(size: Word, grown: int) returns (ptr: int)
      requires Valid()
      requires grown != 0 ==> PagesFor(Aligned(size)) > 0 && Spare(arenas, grown, PagesFor(Aligned(size)))
      modifies this
      ensures Valid()
      ensures size == 0 ==> ptr == 0 && tiles == old(tiles) && arenas == old(arenas)
      ensures size > 0 ==> Served(old(arenas), old(tiles), Aligned(size), grown, arenas, tiles, ptr)
      ensures allocations == old(allocations) + if ptr != 0 then 1 else 0
      ensures size == 0 || Serving(old(tiles), Aligned(size), 0).Some? ==> failed == old(failed) && pagesUsed == old(pagesUsed)
      ensures size > 0 && Serving(old(tiles), Aligned(size), 0).None? ==>
        failed == old(failed) + (if grown == 0 then 1 else 0) && pagesUsed == old(pagesUsed) + (if grown == 0 then 0 else PagesFor(Aligned(size)))
    {
      if size == 0 {
        return 0;
      }
      var aligned := Aligned(size);
      var required := PagesFor(aligned);
      ptr := FirstFit(aligned);
      if ptr != 0 {
        return;
      }
      var ok := AddArena(required, grown);
      if !ok {
        return 0;
      }
      OnlyBlock(required, aligned);
      ptr := AllocateFrom(0, aligned);
    }

    /** The loop of `kmalloc` over the arenas. */
    method FirstFit(size: nat) returns (ptr: int)
      requires Valid() && size % ALIGN == 0
      modifies this
      ensures Valid() && arenas == old(arenas) && allocations == old(allocations) + if ptr != 0 then 1 else 0
      ensures ptr == 0 <==> Serving(old(tiles), size, 0).None?
      ensures ptr == 0 ==> tiles == old(tiles)
      ensures failed == old(failed) && pagesUsed == old(pagesUsed)
      ensures ptr != 0 ==> TookFrom(arenas, old(tiles), size, Serving(old(tiles), size, 0).value, tiles, ptr)
    {
      var k := 0;
      while k < |arenas|
        invariant k <= |arenas| && Valid() && arenas == old(arenas) && tiles == old(tiles) && allocations == old(allocations)
        invariant failed == old(failed) && pagesUsed == old(pagesUsed)
        invariant forall j :: 0 <= j < k ==> Fit(tiles[j], size).None?
      {
        ptr := AllocateFrom(k, size);
        if ptr != 0 {
          FirstServes(old(tiles), size, k);
          return;
        }
        k := k + 1;
      }
      NoneServes(old(tiles), size);
      ptr := 0;
    }

    /** `kernel_heap_page_from_pointer`. */
    method FindArena(ptr: int) returns (k: int)
      requires Valid()
      ensures -1 <= k < |arenas|
      ensures k >= 0 ==> arenas[k].base <= ptr < End(arenas[k])
      ensures k < 0 ==> forall j :: 0 <= j < |arenas| ==> !(arenas[j].base <= ptr < End(arenas[j]))
    {
      k := 0;
      while k < |arenas|
        invariant 0 <= k <= |arenas|
        invariant forall j :: 0 <= j < k ==> !(arenas[j].base <= ptr < End(arenas[j]))
      {
        if arenas[k].base <= ptr && ptr < End(arenas[k]) {
          return;
        }
        k := k + 1;
      }
      k := -1;
    }

    /** `kernel_heap_coalesce`: with the block after, then with the block before. */
    method Coalesce(block: int, ghost base: int, ghost bs: seq<Block>, ghost i: nat)
      requires Spells(mem, base, bs) && base > 0 && i < |bs| && bs[i].free && block == At(base, bs, i)
      modifies this`mem
      ensures Spells(mem, base, JoinPrev(JoinNext(bs, i), i))
      ensures SameOutside(old(mem), mem, base, base + FIRST + Bytes(bs))
    {
      SwallowNext(block, base, bs, i);
      JoinNextKeepsAt(base, bs, i);
      JoinNextSums(bs, i);
      IntoPrev(block, base, JoinNext(bs, i), i);
    }

    method IntoPrev(block: int, ghost base: int, ghost bs: seq<Block>, ghost i: nat)
      requires Spells(mem, base, bs) && base > 0 && i < |bs| && bs[i].free && block == At(base, bs, i)
      modifies this`mem
      ensures Spells(mem, base, JoinPrev(bs, i))
      ensures SameOutside(old(mem), mem, base, base + FIRST + Bytes(bs))
    {
      assert HasNode(mem, base, bs, i);
      if i > 0 {
        assert HasNode(mem, base, bs, i - 1);
        Inside(base, bs, i - 1);
      }
      var n := mem[block];
      if n.prev != 0 && mem[n.prev].free {
        JoinSpells(mem, base, bs, i - 1);
        if i + 1 < |bs| {
          assert HasNode(mem, base, bs, i + 1);
        }
        var prev := n.prev;
        mem := mem[prev := mem[prev].(size := mem[prev].size + HEADER + n.size, next := n.next)];
        if n.next != 0 {
          mem := mem[n.next := mem[n.next].(prev := prev)];
        }
        assert mem == JoinMem(old(mem), prev);
      }
    }

    method SwallowNext(block: int, ghost base: int, ghost bs: seq<Block>, ghost i: nat)
      requires Spells(mem, base, bs) && base > 0 && i < |bs| && bs[i].free && block == At(base, bs, i)
      modifies this`mem
      ensures Spells(mem, base, JoinNext(bs, i))
      ensures SameOutside(old(mem), mem, base, base + FIRST + Bytes(bs))
    {
      assert HasNode(mem, base, bs, i);
      var n := mem[block];
      if i + 1 < |bs| {
        assert HasNode(mem, base, bs, i + 1);
        Inside(base, bs, i + 1);
      }
      if n.next != 0 && mem[n.next].free {
        JoinSpells(mem, base, bs, i);
        if i + 2 < |bs| {
          assert HasNode(mem, base, bs, i + 2);
        }
        var gone := mem[n.next];
        mem := mem[block := n.(size := n.size + HEADER + gone.size, next := gone.next)];
        if gone.next != 0 {
          mem := mem[gone.next := mem[gone.next].(prev := block)];
        }
        assert mem == JoinMem(old(mem), block);
      }
    }

    /**
     `kfree`: null, a pointer outside every arena and a block already free are ignored; any
     other pointer must be one `kmalloc` returned.
     */
    method Kfree(ptr: int)
      requires Valid()
      requires ptr == 0 || Stray(arenas, ptr) || exists k: nat, i: nat :: PayloadAt(arenas, tiles, ptr, k, i)
      modifies this
      ensures Valid() && arenas == old(arenas) && allocations == old(allocations) && failed == old(failed) && pagesUsed == old(pagesUsed)
      ensures ptr == 0 || Stray(arenas, ptr) ==> tiles == old(tiles)
      ensures forall k: nat, i: nat :: ptr != 0 && PayloadAt(arenas, old(tiles), ptr, k, i) ==>
        tiles == old(tiles)[k := if old(tiles)[k][i].free then old(tiles)[k] else Freed(old(tiles)[k], i)]
    {
      if ptr == 0 {
        return;
      }
      var at := FindArena(ptr);
      if at < 0 {
        StrayIsNone(mem, arenas, tiles, ptr);
        return;
      }
      ghost var k: nat, i: nat :| PayloadAt(arenas, tiles, ptr, k, i);
      OnePayload(mem, arenas, tiles, ptr, k, i);
      var block := ptr - HEADER;
      assert HasNode(mem, arenas[k].base, tiles[k], i);
      if mem[block].free {
        assert tiles == tiles[k := tiles[k]];
        return;
      }
      GiveBack(block, k, i);
    }

    method GiveBack(block: int, ghost k: nat, ghost i: nat)
      requires Valid() && k < |arenas| && i < |tiles[k]| && block == At(arenas[k].base, tiles[k], i) && !tiles[k][i].free
      modifies this
      ensures Valid() && arenas == old(arenas) && allocations == old(allocations) && failed == old(failed) && pagesUsed == old(pagesUsed)
      ensures tiles == old(tiles)[k := Freed(old(tiles)[k], i)]
    {
      ghost var base, bs := arenas[k].base, tiles[k];
      MarkSpells(mem, base, bs, i, true);
      MarkSums(bs, i, true);
      MarkAt(base, bs, i, true, i);
      mem := mem[block := mem[block].(free := true)];
      usedSpace := usedSpace - mem[block].size;
      freeSpace := freeSpace + mem[block].size;
      Coalesce(block, base, Mark(bs, i, true), i);
      FreedTidy(bs, i);
      HeapUpdate(old(mem), mem, arenas, tiles, k, Freed(bs, i));
      TotalsUpdate(tiles, k, Freed(bs, i));
      tiles := tiles[k := Freed(bs, i)];
    }
  }

  /** Pages the allocator may hand out: whole, and nobody else's. */
  ghost predicate Spare(arenas: seq<Arena>, grown: int, pages: nat) {
    grown > 0 && grown % PAGE_SIZE == 0 && forall k :: 0 <= k < |arenas| ==> Apart(Arena(grown, pages), arenas[k])
  }

  /** The first arena that can serve a request. */
  ghost function Serving(ts: seq<seq<Block>>, size: nat, k: nat): (r: Option<nat>)
    requires k <= |ts|
    ensures r.Some? ==> k <= r.value < |ts| && Fit(ts[r.value], size).Some?
    ensures r.Some? ==> forall j :: k <= j < r.value ==> Fit(ts[j], size).None?
    ensures r.None? ==> forall j :: k <= j < |ts| ==> Fit(ts[j], size).None?
    decreases |ts| - k
  {
    if k == |ts| then None else if Fit(ts[k], size).Some? then Some(k) else Serving(ts, size, k + 1)
  }

  lemma FirstServes(ts: seq<seq<Block>>, size: nat, k: nat)
    requires k < |ts| && Fit(ts[k], size).Some? && forall j :: 0 <= j < k ==> Fit(ts[j], size).None?
    ensures Serving(ts, size, 0) == Some(k)
  {
    var r := Serving(ts, size, 0);
    assert r.Some? && r.value >= k && r.value <= k;
  }

  lemma NoneServes(ts: seq<seq<Block>>, size: nat)
    requires forall j :: 0 <= j < |ts| ==> Fit(ts[j], size).None?
    ensures Serving(ts, size, 0).None?
  {
  }

  lemma OnlyBlock(pages: nat, size: nat)
    requires pages > 0
    ensures Fit(Whole(pages), size) == if Whole(pages)[0].size >= size then Some(0) else None
    ensures forall base :: At(base, Whole(pages), 0) == base + FIRST
  {
    assert Whole(pages)[..0] == [];
  }

  /** The first fitting block of arena `k` is taken. */
  ghost predicate TookFrom(arenas: seq<Arena>, ts: seq<seq<Block>>, size: nat, k: nat, ts': seq<seq<Block>>, ptr: int) {
    && |arenas| == |ts| && k < |ts| && Fit(ts[k], size).Some?
    && var i := Fit(ts[k], size).value;
       ts' == ts[k := Taken(ts[k], i, size)] && ptr == At(arenas[k].base, ts[k], i) + HEADER
  }

  /** What a request for `size` bytes, aligned, must do. */
  ghost predicate Served(arenas: seq<Arena>, ts: seq<seq<Block>>, size: Word, grown: int,
                         arenas': seq<Arena>, ts': seq<seq<Block>>, ptr: int)
    requires |arenas| == |ts|
  {
    match Serving(ts, size, 0)
    case Some(k) => arenas' == arenas && TookFrom(arenas, ts, size, k, ts', ptr)
    case None =>
      if grown == 0 then arenas' == arenas && ts' == ts && ptr == 0
      else
        var pages := PagesFor(size);
        && arenas' == [Arena(grown, pages)] + arenas && pages > 0
        && if Whole(pages)[0].size >= size
           then ts' == [Taken(Whole(pages), 0, size)] + ts && ptr == grown + FIRST + HEADER
           else ts' == [Whole(pages)] + ts && ptr == 0
  }

  ghost predicate Stray(arenas: seq<Arena>, ptr: int) {
    forall k :: 0 <= k < |arenas| ==> !(arenas[k].base <= ptr < End(arenas[k]))
  }

  /** `ptr` is the payload of block `i` of arena `k`. */
  ghost predicate PayloadAt(arenas: seq<Arena>, ts: seq<seq<Block>>, ptr: int, k: nat, i: nat) {
    |ts| == |arenas| && k < |arenas| && i < |ts[k]| && ptr == At(arenas[k].base, ts[k], i) + HEADER
  }

  lemma PayloadInside(mem: Mem, arenas: seq<Arena>, ts: seq<seq<Block>>, ptr: int, k: nat, i: nat)
    requires HeapInv(mem, arenas, ts) && PayloadAt(arenas, ts, ptr, k, i)
    ensures arenas[k].base <= ptr < End(arenas[k])
  {
    Inside(arenas[k].base, ts[k], i);
    if i + 1 < |ts[k]| {
      Inside(arenas[k].base, ts[k], i + 1);
      Next(arenas[k].base, ts[k], i);
    }
  }

  lemma StrayIsNone(mem: Mem, arenas: seq<Arena>, ts: seq<seq<Block>>, ptr: int)
    requires HeapInv(mem, arenas, ts) && Stray(arenas, ptr)
    ensures forall k: nat, i: nat :: !PayloadAt(arenas, ts, ptr, k, i)
  {
    forall k: nat, i: nat | PayloadAt(arenas, ts, ptr, k, i) ensures false {
      PayloadInside(mem, arenas, ts, ptr, k, i);
    }
  }

  /** A payload address names one block of one arena. */
  lemma OnePayload(mem: Mem, arenas: seq<Arena>, ts: seq<seq<Block>>, ptr: int, k: nat, i: nat)
    requires HeapInv(mem, arenas, ts) && PayloadAt(arenas, ts, ptr, k, i)
    ensures !Stray(arenas, ptr)
    ensures forall k': nat, i': nat :: PayloadAt(arenas, ts, ptr, k', i') ==> k' == k && i' == i
  {
    PayloadInside(mem, arenas, ts, ptr, k, i);
    forall k': nat, i': nat | PayloadAt(arenas, ts, ptr, k', i') ensures k' == k && i' == i {
      PayloadInside(mem, arenas, ts, ptr, k', i');
      SameIndex(arenas[k].base, ts[k], i, i');
    }
  }

  lemma JoinNextKeepsAt(base: int, bs: seq<Block>, i: nat)
    requires i < |bs| && bs[i].free
    ensures At(base, JoinNext(bs, i), i) == At(base, bs, i) && JoinNext(bs, i)[i].free
  {
    assert JoinNext(bs, i)[..i] == bs[..i];
  }

  /** A fresh arena is one free block, and the old arenas do not notice. */
  lemma NewArena(mem: Mem, arenas: seq<Arena>, tiles: seq<seq<Block>>, a: Arena)
    requires HeapInv(mem, arenas, tiles) && a.base > 0 && a.base % PAGE_SIZE == 0 && a.pages > 0
    requires forall k :: 0 <= k < |arenas| ==> Apart(a, arenas[k])
    ensures var usable := a.pages * PAGE_SIZE - FIRST - HEADER;
      HeapInv(mem[a.base + FIRST := Node(usable, true, 0, 0)], [a] + arenas, [Whole(a.pages)] + tiles)
  {
    var usable := a.pages * PAGE_SIZE - FIRST - HEADER;
    var bs := Whole(a.pages);
    var mem' := mem[a.base + FIRST := Node(usable, true, 0, 0)];
    One(bs[0]);
    assert bs[..0] == [];
    assert SizeOk(bs[0]);
    assert HasNode(mem', a.base, bs, 0);
    forall k | 0 <= k < |arenas| ensures ArenaOk(mem', arenas[k], tiles[k]) {
      ArenaFrame(mem, mem', arenas[k], tiles[k], a.base, End(a));
    }
  }

  lemma SplitKeepsAt(base: int, bs: seq<Block>, i: nat, size: nat)
    requires i < |bs| && bs[i].free
    ensures i < |Split(bs, i, size)| && At(base, Split(bs, i, size), i) == At(base, bs, i)
    ensures |Split(bs, i, size)| >= |bs| && Split(bs, i, size)[i].free
  {
    assert Split(bs, i, size)[..i] == bs[..i];
  }

  // ---------------------------------------------------------------- what the heap promises

  /**
   `kfree` of what `kmalloc` just took from an existing arena finds that block and restores
   every block list.
   */
  lemma FreeUndoes(mem: Mem, arenas: seq<Arena>, ts: seq<seq<Block>>, size: nat)
    requires HeapInv(mem, arenas, ts) && Serving(ts, size, 0).Some?
    ensures var k := Serving(ts, size, 0).value;
      var i := Fit(ts[k], size).value;
      var ts' := ts[k := Taken(ts[k], i, size)];
      && PayloadAt(arenas, ts', At(arenas[k].base, ts[k], i) + HEADER, k, i)
      && !ts'[k][i].free && ts'[k := Freed(ts'[k], i)] == ts
  {
    var k := Serving(ts, size, 0).value;
    var i := Fit(ts[k], size).value;
    Restored(ts[k], i, size);
    SplitKeepsAt(arenas[k].base, ts[k], i, size);
    MarkAt(arenas[k].base, Split(ts[k], i, size), i, false, i);
  }

  lemma {:induction false} UsedNowhere(ts: seq<seq<Block>>, k: nat)
    requires k < |ts| && TotalUsed(ts) == 0
    ensures Used(ts[k]) == 0
  {
    if k > 0 {
      UsedNowhere(ts[1..], k - 1);
    }
  }

  /**
   Once no bytes are in use, whatever the order of the frees, an arena is one free block,
   unless an empty block is still out.
   */
  lemma IdleIsWhole(mem: Mem, arenas: seq<Arena>, ts: seq<seq<Block>>, k: nat)
    requires HeapInv(mem, arenas, ts) && TotalUsed(ts) == 0 && k < |ts|
    ensures ts[k] == Whole(arenas[k].pages) <==>
      forall i :: 0 <= i < |ts[k]| && ts[k][i].size == 0 ==> ts[k][i].free
  {
    UsedNowhere(ts, k);
    UsedZero(ts[k]);
    if forall i :: 0 <= i < |ts[k]| && ts[k][i].size == 0 ==> ts[k][i].free {
      AllFreeIsOne(ts[k]);
    }
  }

  /** Where a served request's block is. */
  ghost function Place(ts: seq<seq<Block>>, size: nat): (nat, nat) {
    match Serving(ts, size, 0)
    case Some(k) => (k, Fit(ts[k], size).value)
    case None => (0, 0)
  }

  /**
   What `kmalloc` returns is the payload of a used block.  The block has the bytes asked for
   exactly when rounding the size up did not pass 2^64; otherwise it is one of less than 48.
   */
  lemma GivesBytes(mem: Mem, arenas: seq<Arena>, ts: seq<seq<Block>>, size: Word, grown: int,
                   arenas': seq<Arena>, ts': seq<seq<Block>>, ptr: int)
    requires HeapInv(mem, arenas, ts) && Served(arenas, ts, Aligned(size), grown, arenas', ts', ptr) && ptr != 0
    ensures var (k, i) := Place(ts, Aligned(size));
      && PayloadAt(arenas', ts', ptr, k, i) && !ts'[k][i].free && ts'[k][i].size < Aligned(size) + MIN_SPLIT
      && (ts'[k][i].size >= size <==> size <= WORD - ALIGN)
  {
    var a := Aligned(size);
    match Serving(ts, a, 0)
    case Some(k) =>
      var i := Fit(ts[k], a).value;
      TakenTidy(ts[k], i, a);
      TakenAt(arenas[k].base, ts[k], i, a);
    case None =>
      var bs := Whole(PagesFor(a));
      TakenTidy(bs, 0, a);
      assert Taken(bs, 0, a)[..0] == [];
  }

  lemma TakenAt(base: int, bs: seq<Block>, i: nat, size: nat)
    requires i < |bs| && bs[i].free
    ensures i < |Taken(bs, i, size)| && At(base, Taken(bs, i, size), i) == At(base, bs, i)
  {
    SplitKeepsAt(base, bs, i, size);
    MarkAt(base, Split(bs, i, size), i, false, i);
  }

  /** The largest size: a payload of no bytes, counted as no bytes in use. */
  method EmptyBlock() returns (heap: Heap, ptr: int)
    ensures heap.Valid() && heap.usedSpace == 0
    ensures PayloadAt(heap.arenas, heap.tiles, ptr, 0, 0) && heap.tiles[0][0] == Block(0, false)
  {
    heap := new Heap();
    ptr := heap.Kmalloc(WORD - 1, PAGE_SIZE);
    assert heap.tiles == [Taken([Block(4016, true)], 0, 0)];
    var bs := [Block(4016, true)];
    assert Taken(bs, 0, 0) == [Block(0, false), Block(3984, true)];
    assert heap.tiles[0][..0] == [];
    Two(Block(0, false), Block(3984, true));
    One(Block(0, false));
    One(Block(3984, true));
    assert heap.tiles[1..] == [];
  }

  /** An arena whose page count wrapped round is added and then does not serve the request. */
  lemma GrowsInVain(arenas: seq<Arena>, ts: seq<seq<Block>>, size: Word, grown: int,
                    arenas': seq<Arena>, ts': seq<seq<Block>>, ptr: int)
    requires |arenas| == |ts| && grown >= 0 && Served(arenas, ts, Aligned(size), grown, arenas', ts', ptr)
    ensures ptr == 0 && arenas' != arenas <==> Serving(ts, Aligned(size), 0).None? && grown != 0 && Aligned(size) >= WORD - FIRST - HEADER
  {
    assert [Arena(grown, PagesFor(Aligned(size)))] + arenas != arenas;
  }

  /** Such a request of an empty heap: null comes back, and the heap has grown by a page. */
  method GrownInVain() returns (heap: Heap, ptr: int)
    ensures heap.Valid() && ptr == 0 && heap.arenas == [Arena(PAGE_SIZE, 1)] && heap.tiles == [Whole(1)]
  {
    heap := new Heap();
    assert Aligned(WORD - 64) == WORD - 64;
    assert PagesFor(WORD - 64) == 1;
    ptr := heap.Kmalloc(WORD - 64, PAGE_SIZE);
  }

  /** Payloads of different blocks, of one arena or of two, do not overlap. */
  lemma PayloadsApart(mem: Mem, arenas: seq<Arena>, ts: seq<seq<Block>>, p: int, k: nat, i: nat, q: int, l: nat, j: nat)
    requires HeapInv(mem, arenas, ts) && PayloadAt(arenas, ts, p, k, i) && PayloadAt(arenas, ts, q, l, j) && (k, i) != (l, j)
    ensures p + ts[k][i].size + HEADER <= q || q + ts[l][j].size + HEADER <= p
  {
    Payloads(mem, arenas[k], ts[k], i, if l == k then j else i);
    Payloads(mem, arenas[l], ts[l], j, if l == k then i else j);
    assert k < l ==> Apart(arenas[k], arenas[l]);
    assert l < k ==> Apart(arenas[l], arenas[k]);
  }
}
