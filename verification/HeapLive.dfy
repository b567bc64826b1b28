/**
 What callers of the heap hold: the payloads handed out and not yet freed, by address and
 size.  An allocation adds one, a free takes away one, and all others stay where they are.
 */
module HeapLive {
  import opened Wrappers
  import opened HeapTiles
  import opened Heap

  /** Block `i` is in use, with this payload. */
  ghost predicate LiveAt(base: int, bs: seq<Block>, i: nat, ptr: int, size: nat) {
    i < |bs| && !bs[i].free && At(base, bs, i) + HEADER == ptr && bs[i].size == size
  }

  ghost predicate Live(base: int, bs: seq<Block>, ptr: int, size: nat) {
    exists i: nat :: LiveAt(base, bs, i, ptr, size)
  }

  /** Splitting a free block touches no block in use. */
  lemma SplitLive(base: int, bs: seq<Block>, i: nat, size: nat, ptr: int, n: nat)
    requires i < |bs| && bs[i].free
    ensures Live(base, Split(bs, i, size), ptr, n) <==> Live(base, bs, ptr, n)
  {
    var s := Split(bs, i, size);
    if bs[i].size >= size + MIN_SPLIT {
      if Live(base, bs, ptr, n) {
        var j: nat :| LiveAt(base, bs, j, ptr, n);
        var k := if j < i then j else j + 1;
        SplitAt(base, bs, i, size, k);
        assert LiveAt(base, s, k, ptr, n);
      }
      if Live(base, s, ptr, n) {
        var k: nat :| LiveAt(base, s, k, ptr, n);
        SplitAt(base, bs, i, size, k);
        assert LiveAt(base, bs, if k < i then k else k - 1, ptr, n);
      }
    }
  }

  /** Nor does joining two free ones. */
  lemma JoinLive(base: int, bs: seq<Block>, i: nat, ptr: int, n: nat)
    requires i + 1 < |bs| && bs[i].free && bs[i + 1].free
    ensures Live(base, Joined(bs, i), ptr, n) <==> Live(base, bs, ptr, n)
  {
    var s := Joined(bs, i);
    if Live(base, bs, ptr, n) {
      var j: nat :| LiveAt(base, bs, j, ptr, n);
      var k := if j < i then j else j - 1;
      JoinAt(base, bs, i, k);
      assert LiveAt(base, s, k, ptr, n);
    }
    if Live(base, s, ptr, n) {
      var k: nat :| LiveAt(base, s, k, ptr, n);
      JoinAt(base, bs, i, k);
      assert LiveAt(base, bs, if k < i then k else k + 1, ptr, n);
    }
  }

  lemma MarkLive(base: int, bs: seq<Block>, i: nat, free: bool, ptr: int, n: nat)
    requires i < |bs| && bs[i].free != free
    ensures Live(base, Mark(bs, i, free), ptr, n) <==>
      if At(base, bs, i) + HEADER == ptr then !free && n == bs[i].size else Live(base, bs, ptr, n)
  {
    var m := Mark(bs, i, free);
    MarkAt(base, bs, i, free, i);
    if Live(base, bs, ptr, n) {
      var j: nat :| LiveAt(base, bs, j, ptr, n);
      MarkAt(base, bs, i, free, j);
      assert j != i ==> LiveAt(base, m, j, ptr, n);
    }
    if Live(base, m, ptr, n) {
      var j: nat :| LiveAt(base, m, j, ptr, n);
      MarkAt(base, bs, i, free, j);
      if At(base, bs, j) == At(base, bs, i) {
        SameIndex(base, bs, i, j);
      } else {
        assert LiveAt(base, bs, j, ptr, n);
      }
    }
    if At(base, bs, i) + HEADER == ptr && !free && n == bs[i].size {
      assert LiveAt(base, m, i, ptr, n);
    }
  }

  /** Taking a block adds its payload and nothing else. */
  lemma TakenLive(base: int, bs: seq<Block>, i: nat, size: nat, ptr: int, n: nat)
    requires i < |bs| && bs[i].free && bs[i].size >= size
    ensures i < |Taken(bs, i, size)|
    ensures Live(base, Taken(bs, i, size), ptr, n) <==>
      if At(base, bs, i) + HEADER == ptr then n == Taken(bs, i, size)[i].size else Live(base, bs, ptr, n)
  {
    SplitKeepsAt(base, bs, i, size);
    SplitLive(base, bs, i, size, ptr, n);
    MarkLive(base, Split(bs, i, size), i, false, ptr, n);
  }

  /** Freeing one takes away its payload and nothing else. */
  lemma FreedLive(base: int, bs: seq<Block>, i: nat, ptr: int, n: nat)
    requires i < |bs| && !bs[i].free
    ensures Live(base, Freed(bs, i), ptr, n) <==> Live(base, bs, ptr, n) && At(base, bs, i) + HEADER != ptr
  {
    var m := Mark(bs, i, true);
    MarkLive(base, bs, i, true, ptr, n);
    if i + 1 < |m| && m[i + 1].free {
      JoinLive(base, m, i, ptr, n);
    }
    var j := JoinNext(m, i);
    if i > 0 && j[i - 1].free {
      JoinLive(base, j, i - 1, ptr, n);
    }
  }

  // ---------------------------------------------------------------- the whole heap

  ghost predicate LiveIn(arenas: seq<Arena>, ts: seq<seq<Block>>, ptr: int, size: nat)
    requires |arenas| == |ts|
  {
    exists k: nat :: k < |arenas| && Live(arenas[k].base, ts[k], ptr, size)
  }

  ghost predicate Held(arenas: seq<Arena>, ts: seq<seq<Block>>, ptr: int)
    requires |arenas| == |ts|
  {
    exists n: nat :: LiveIn(arenas, ts, ptr, n)
  }

  /** A payload lies in one arena. */
  lemma OneArena(mem: Mem, arenas: seq<Arena>, ts: seq<seq<Block>>, k: nat, i: nat, ptr: int, n: nat)
    requires HeapInv(mem, arenas, ts) && PayloadAt(arenas, ts, ptr, k, i) && LiveIn(arenas, ts, ptr, n)
    ensures LiveAt(arenas[k].base, ts[k], i, ptr, n)
  {
    var l: nat :| l < |arenas| && Live(arenas[l].base, ts[l], ptr, n);
    var j: nat :| LiveAt(arenas[l].base, ts[l], j, ptr, n);
    OnePayload(mem, arenas, ts, ptr, k, i);
    assert PayloadAt(arenas, ts, ptr, l, j);
  }

  /** One arena's list changed, and in it one payload at most. */
  lemma UpdateLive(mem: Mem, arenas: seq<Arena>, ts: seq<seq<Block>>, k: nat, i: nat, bs: seq<Block>, ptr: int, p: int, n: nat)
    requires HeapInv(mem, arenas, ts) && PayloadAt(arenas, ts, ptr, k, i)
    requires p != ptr ==> (Live(arenas[k].base, bs, p, n) <==> Live(arenas[k].base, ts[k], p, n))
    ensures p != ptr ==> (LiveIn(arenas, ts[k := bs], p, n) <==> LiveIn(arenas, ts, p, n))
    ensures LiveIn(arenas, ts[k := bs], ptr, n) <==> Live(arenas[k].base, bs, ptr, n)
  {
    var ts' := ts[k := bs];
    if LiveIn(arenas, ts', p, n) && p != ptr {
      var l: nat :| l < |arenas| && Live(arenas[l].base, ts'[l], p, n);
      assert Live(arenas[l].base, ts[l], p, n);
    }
    if LiveIn(arenas, ts, p, n) && p != ptr {
      var l: nat :| l < |arenas| && Live(arenas[l].base, ts[l], p, n);
      assert Live(arenas[l].base, ts'[l], p, n);
    }
    if LiveIn(arenas, ts', ptr, n) {
      var l: nat :| l < |arenas| && Live(arenas[l].base, ts'[l], ptr, n);
      if l != k {
        assert LiveIn(arenas, ts, ptr, n);
        var j: nat :| LiveAt(arenas[l].base, ts[l], j, ptr, n);
        OnePayload(mem, arenas, ts, ptr, k, i);
        assert PayloadAt(arenas, ts, ptr, l, j);
      }
    }
    if Live(arenas[k].base, bs, ptr, n) {
      assert Live(arenas[k].base, ts'[k], ptr, n);
    }
  }

  /** `kfree` of a payload in use takes it away; every other payload stays where it is. */
  lemma FreeLive(mem: Mem, arenas: seq<Arena>, ts: seq<seq<Block>>, k: nat, i: nat, ptr: int, p: int, n: nat)
    requires HeapInv(mem, arenas, ts) && PayloadAt(arenas, ts, ptr, k, i) && !ts[k][i].free
    ensures LiveIn(arenas, ts[k := Freed(ts[k], i)], p, n) <==> LiveIn(arenas, ts, p, n) && p != ptr
  {
    FreedLive(arenas[k].base, ts[k], i, p, n);
    FreedLive(arenas[k].base, ts[k], i, ptr, n);
    UpdateLive(mem, arenas, ts, k, i, Freed(ts[k], i), ptr, p, n);
  }

  /** An arena in front of the others adds its payloads. */
  lemma PushLive(arenas: seq<Arena>, ts: seq<seq<Block>>, a: Arena, bs: seq<Block>, p: int, n: nat)
    requires |arenas| == |ts|
    ensures LiveIn([a] + arenas, [bs] + ts, p, n) <==> Live(a.base, bs, p, n) || LiveIn(arenas, ts, p, n)
  {
    if Live(a.base, bs, p, n) {
      assert Live(([a] + arenas)[0].base, ([bs] + ts)[0], p, n);
    }
    if LiveIn(arenas, ts, p, n) {
      var k: nat :| k < |arenas| && Live(arenas[k].base, ts[k], p, n);
      assert Live(([a] + arenas)[k + 1].base, ([bs] + ts)[k + 1], p, n);
    }
  }

  lemma WholeLive(base: int, pages: nat, size: nat, p: int, n: nat)
    requires pages > 0
    ensures !Live(base, Whole(pages), p, n)
    ensures Whole(pages)[0].size >= size ==>
      (Live(base, Taken(Whole(pages), 0, size), p, n) <==> p == base + FIRST + HEADER && n == Taken(Whole(pages), 0, size)[0].size)
  {
    assert At(base, Whole(pages), 0) == base + FIRST by {
      OnlyBlock(pages, size);
    }
    if Whole(pages)[0].size >= size {
      TakenLive(base, Whole(pages), 0, size, p, n);
    }
  }

  /** Nobody holds an address in pages that belong to no arena. */
  lemma NewPagesFree(mem: Mem, arenas: seq<Arena>, ts: seq<seq<Block>>, grown: int, pages: nat, n: nat)
    requires HeapInv(mem, arenas, ts) && Spare(arenas, grown, pages) && pages > 0
    ensures !LiveIn(arenas, ts, grown + FIRST + HEADER, n)
  {
    if LiveIn(arenas, ts, grown + FIRST + HEADER, n) {
      var k: nat :| k < |arenas| && Live(arenas[k].base, ts[k], grown + FIRST + HEADER, n);
      var i: nat :| LiveAt(arenas[k].base, ts[k], i, grown + FIRST + HEADER, n);
      assert PayloadAt(arenas, ts, grown + FIRST + HEADER, k, i);
      PayloadInside(mem, arenas, ts, grown + FIRST + HEADER, k, i);
      assert false;
    }
  }

  /** What an allocation of `size` bytes that returned `ptr` did to the payload `n` bytes long at `p`. */
  ghost predicate Gained(before: bool, after: bool, size: nat, ptr: int, p: int, n: nat) {
    && (ptr == 0 || p != ptr ==> (after <==> before))
    && (ptr != 0 && p == ptr ==> !before && (after ==> size <= n < size + MIN_SPLIT))
  }

  lemma TookLive(mem: Mem, arenas: seq<Arena>, ts: seq<seq<Block>>, size: nat, k: nat, ts': seq<seq<Block>>, ptr: int, p: int, n: nat)
    requires HeapInv(mem, arenas, ts) && TookFrom(arenas, ts, size, k, ts', ptr) && size % ALIGN == 0
    ensures |ts'| == |arenas| && ptr != 0 && Gained(LiveIn(arenas, ts, p, n), LiveIn(arenas, ts', p, n), size, ptr, p, n)
    ensures Held(arenas, ts', ptr)
  {
    var i := Fit(ts[k], size).value;
    var bs := Taken(ts[k], i, size);
    assert PayloadAt(arenas, ts, ptr, k, i);
    PayloadInside(mem, arenas, ts, ptr, k, i);
    TakenTidy(ts[k], i, size);
    TakenLive(arenas[k].base, ts[k], i, size, p, n);
    TakenLive(arenas[k].base, ts[k], i, size, ptr, n);
    TakenLive(arenas[k].base, ts[k], i, size, ptr, bs[i].size);
    UpdateLive(mem, arenas, ts, k, i, bs, ptr, p, n);
    UpdateLive(mem, arenas, ts, k, i, bs, ptr, ptr, bs[i].size);
    assert LiveIn(arenas, ts', ptr, bs[i].size);
    if LiveIn(arenas, ts, ptr, n) {
      OneArena(mem, arenas, ts, k, i, ptr, n);
      assert false;
    }
  }

  lemma GrewLive(mem: Mem, arenas: seq<Arena>, ts: seq<seq<Block>>, size: nat, grown: int, pages: nat, p: int, n: nat)
    requires HeapInv(mem, arenas, ts) && Spare(arenas, grown, pages) && pages > 0 && Whole(pages)[0].size >= size && size % ALIGN == 0
    ensures var arenas', ts' := [Arena(grown, pages)] + arenas, [Taken(Whole(pages), 0, size)] + ts;
      && Gained(LiveIn(arenas, ts, p, n), LiveIn(arenas', ts', p, n), size, grown + FIRST + HEADER, p, n)
      && Held(arenas', ts', grown + FIRST + HEADER)
  {
    var bs := Taken(Whole(pages), 0, size);
    WholeTidy(pages);
    TakenTidy(Whole(pages), 0, size);
    WholeLive(grown, pages, size, p, n);
    WholeLive(grown, pages, size, grown + FIRST + HEADER, bs[0].size);
    PushLive(arenas, ts, Arena(grown, pages), bs, p, n);
    PushLive(arenas, ts, Arena(grown, pages), bs, grown + FIRST + HEADER, bs[0].size);
    NewPagesFree(mem, arenas, ts, grown, pages, n);
    assert LiveIn([Arena(grown, pages)] + arenas, [bs] + ts, grown + FIRST + HEADER, bs[0].size);
  }

  lemma WholeTidy(pages: nat)
    requires pages > 0
    ensures Tidy(Whole(pages))
  {
  }

  /**
   `kmalloc`: a payload that nobody held, of at least the aligned size, is now held, and
   everything held before still is, in the same place with the same size.
   */
  lemma MallocLive(mem: Mem, arenas: seq<Arena>, ts: seq<seq<Block>>, size: Word, grown: int,
                   arenas': seq<Arena>, ts': seq<seq<Block>>, ptr: int, p: int, n: nat)
    requires HeapInv(mem, arenas, ts) && Served(arenas, ts, Aligned(size), grown, arenas', ts', ptr)
    requires grown != 0 ==> Spare(arenas, grown, PagesFor(Aligned(size)))
    ensures |arenas'| == |ts'| && Gained(LiveIn(arenas, ts, p, n), LiveIn(arenas', ts', p, n), Aligned(size), ptr, p, n)
    ensures ptr != 0 ==> Held(arenas', ts', ptr)
  {
    var a := Aligned(size);
    if Serving(ts, a, 0).Some? {
      TookLive(mem, arenas, ts, a, Serving(ts, a, 0).value, ts', ptr, p, n);
    } else if grown != 0 {
      var pages := PagesFor(a);
      if Whole(pages)[0].size >= a {
        GrewLive(mem, arenas, ts, a, grown, pages, p, n);
      } else {
        WholeLive(grown, pages, a, p, n);
        PushLive(arenas, ts, Arena(grown, pages), Whole(pages), p, n);
      }
    }
  }
}
