/**
 The blocks of one heap arena as a sequence: first-fit allocation with splitting, freeing
 with coalescing (`heap.c`), and what they keep.
 */
module HeapTiles {
  import opened Wrappers

  const HEADER: nat := 32              // sizeof(struct kernel_heap_block)
  const ALIGN: nat := 16
  const FIRST: nat := 48               // the arena header, aligned
  const MIN_SPLIT: nat := 48           // a header and the least payload

  datatype Block = Block(size: nat, free: bool)

  /** `kernel_heap_align_up` to 16, in 64 bits: the last fifteen sizes become 0. */
  function Aligned(v: Word): (r: Word)
    ensures r % ALIGN == 0 && if v <= WORD - ALIGN then v <= r < v + ALIGN else r == 0
  {
    Plus(v, 15) - Plus(v, 15) % 16
  }

  // ---------------------------------------------------------------- what an arena is

  function Bytes(bs: seq<Block>): nat {
    if bs == [] then 0 else Bytes(bs[..|bs| - 1]) + HEADER + bs[|bs| - 1].size
  }

  function Used(bs: seq<Block>): nat {
    if bs == [] then 0 else Used(bs[..|bs| - 1]) + if bs[|bs| - 1].free then 0 else bs[|bs| - 1].size
  }

  function Payload(bs: seq<Block>): nat {
    if bs == [] then 0 else Payload(bs[..|bs| - 1]) + if bs[|bs| - 1].free then bs[|bs| - 1].size else 0
  }

  /** Blocks `i` and `i + 1` are not both free. */
  predicate Parted(bs: seq<Block>, i: nat)
    requires i + 1 < |bs|
  {
    !bs[i].free || !bs[i + 1].free
  }

  predicate SizeOk(b: Block) { b.size % ALIGN == 0 }

  /** Payloads are multiples of 16 bytes, the last is not empty, and no two neighbours are free. */
  ghost predicate Tidy(bs: seq<Block>) {
    && bs != [] && bs[|bs| - 1].size > 0
    && (forall i :: 0 <= i < |bs| ==> SizeOk(bs[i]))
    && (forall i :: 0 <= i < |bs| - 1 ==> Parted(bs, i))
  }

  // ---------------------------------------------------------------- the operations

  /** First fit. */
  function Fit(bs: seq<Block>, size: nat): (r: Option<nat>)
    ensures r.Some? ==> r.value < |bs| && bs[r.value].free && bs[r.value].size >= size
    ensures r.Some? ==> forall k :: 0 <= k < r.value ==> !(bs[k].free && bs[k].size >= size)
    ensures r.None? ==> forall k :: 0 <= k < |bs| ==> !(bs[k].free && bs[k].size >= size)
  {
    FitFrom(bs, size, 0)
  }

  function FitFrom(bs: seq<Block>, size: nat, i: nat): (r: Option<nat>)
    requires i <= |bs|
    ensures r.Some? ==> i <= r.value < |bs| && bs[r.value].free && bs[r.value].size >= size
    ensures r.Some? ==> forall k :: i <= k < r.value ==> !(bs[k].free && bs[k].size >= size)
    ensures r.None? ==> forall k :: i <= k < |bs| ==> !(bs[k].free && bs[k].size >= size)
    decreases |bs| - i
  {
    if i == |bs| then None
    else if bs[i].free && bs[i].size >= size then Some(i)
    else FitFrom(bs, size, i + 1)
  }

  function Split(bs: seq<Block>, i: nat, size: nat): seq<Block>
    requires i < |bs|
  {
    if bs[i].size < size + MIN_SPLIT then bs
    else bs[..i] + [Block(size, bs[i].free), Block(bs[i].size - size - HEADER, true)] + bs[i + 1..]
  }

  function Mark(bs: seq<Block>, i: nat, free: bool): seq<Block>
    requires i < |bs|
  {
    bs[i := bs[i].(free := free)]
  }

  function Taken(bs: seq<Block>, i: nat, size: nat): seq<Block>
    requires i < |bs|
  {
    Mark(Split(bs, i, size), i, false)
  }

  /** Blocks `i` and `i + 1` become one. */
  function Joined(bs: seq<Block>, i: nat): seq<Block>
    requires i + 1 < |bs|
  {
    bs[..i] + [bs[i].(size := bs[i].size + HEADER + bs[i + 1].size)] + bs[i + 2..]
  }

  function JoinNext(bs: seq<Block>, i: nat): (r: seq<Block>)
    requires i < |bs|
    ensures |r| > i
  {
    if i + 1 < |bs| && bs[i + 1].free then Joined(bs, i) else bs
  }

  function JoinPrev(bs: seq<Block>, i: nat): seq<Block>
    requires i < |bs|
  {
    if i > 0 && bs[i - 1].free then Joined(bs, i - 1) else bs
  }

  function Freed(bs: seq<Block>, i: nat): seq<Block>
    requires i < |bs|
  {
    JoinPrev(JoinNext(Mark(bs, i, true), i), i)
  }

  // ---------------------------------------------------------------- sums over pieces

  lemma {:induction false} Sums(a: seq<Block>, b: seq<Block>)
    ensures Bytes(a + b) == Bytes(a) + Bytes(b)
    ensures Used(a + b) == Used(a) + Used(b) && Payload(a + b) == Payload(a) + Payload(b)
    decreases |b|
  {
    if b == [] {
      assert a + b == a;
    } else {
      var n := |b| - 1;
      assert (a + b)[..|a + b| - 1] == a + b[..n];
      Sums(a, b[..n]);
    }
  }

  lemma One(b: Block)
    ensures Bytes([b]) == HEADER + b.size
    ensures Used([b]) == (if b.free then 0 else b.size) && Payload([b]) == if b.free then b.size else 0
  {
    assert [b][..0] == [];
  }

  /** The sums see only the pieces around a replaced middle. */
  lemma Around(a: seq<Block>, m: seq<Block>, b: seq<Block>)
    ensures Bytes(a + m + b) == Bytes(a) + Bytes(m) + Bytes(b)
    ensures Used(a + m + b) == Used(a) + Used(m) + Used(b)
    ensures Payload(a + m + b) == Payload(a) + Payload(m) + Payload(b)
  {
    Sums(a, m);
    Sums(a + m, b);
  }

  lemma Two(b: Block, c: Block)
    ensures Bytes([b, c]) == Bytes([b]) + Bytes([c])
    ensures Used([b, c]) == Used([b]) + Used([c]) && Payload([b, c]) == Payload([b]) + Payload([c])
  {
    assert [b, c] == [b] + [c];
    Sums([b], [c]);
  }

  // ---------------------------------------------------------------- allocation

  lemma MarkSums(bs: seq<Block>, i: nat, free: bool)
    requires i < |bs| && bs[i].free != free
    ensures Bytes(Mark(bs, i, free)) == Bytes(bs)
    ensures Used(Mark(bs, i, free)) + (if free then bs[i].size else 0) == Used(bs) + if free then 0 else bs[i].size
    ensures Payload(Mark(bs, i, free)) + (if free then 0 else bs[i].size) == Payload(bs) + if free then bs[i].size else 0
  {
    Pieces(bs, i, bs[i].(free := free));
    One(bs[i]);
    One(bs[i].(free := free));
  }

  lemma Pieces(bs: seq<Block>, i: nat, x: Block)
    requires i < |bs|
    ensures Bytes(bs[i := x]) + Bytes([bs[i]]) == Bytes(bs) + Bytes([x])
    ensures Used(bs[i := x]) + Used([bs[i]]) == Used(bs) + Used([x])
    ensures Payload(bs[i := x]) + Payload([bs[i]]) == Payload(bs) + Payload([x])
  {
    var a, b := bs[..i], bs[i + 1..];
    assert bs == a + [bs[i]] + b;
    assert bs[i := x] == a + [x] + b;
    Around(a, [bs[i]], b);
    Around(a, [x], b);
  }

  /** A split costs one header of free payload. */
  lemma SplitSums(bs: seq<Block>, i: nat, size: nat)
    requires i < |bs| && bs[i].free && bs[i].size >= size
    ensures Bytes(Split(bs, i, size)) == Bytes(bs) && Used(Split(bs, i, size)) == Used(bs)
    ensures Payload(Split(bs, i, size)) + HEADER * |Split(bs, i, size)| == Payload(bs) + HEADER * |bs|
  {
    if bs[i].size >= size + MIN_SPLIT {
      var a, b := bs[..i], bs[i + 1..];
      var x, y := Block(size, bs[i].free), Block(bs[i].size - size - HEADER, true);
      assert bs == a + [bs[i]] + b;
      assert Split(bs, i, size) == a + [x, y] + b;
      Around(a, [bs[i]], b);
      Around(a, [x, y], b);
      Two(x, y);
      One(bs[i]);
      One(x);
      One(y);
    }
  }

  lemma SplitTidy(bs: seq<Block>, i: nat, size: nat)
    requires Tidy(bs) && i < |bs| && bs[i].free && bs[i].size >= size + MIN_SPLIT && size % ALIGN == 0
    ensures Tidy(Taken(bs, i, size))
  {
    var r := Taken(bs, i, size);
    assert SizeOk(bs[i]);
    assert |r| == |bs| + 1;
    assert forall k :: 0 <= k < i ==> r[k] == bs[k];
    assert forall k :: i + 1 < k < |r| ==> r[k] == bs[k - 1];
    forall k | 0 <= k < |r| - 1 ensures Parted(r, k) {
      if k + 1 < i {
        assert Parted(bs, k);
      } else if k > i {
        assert Parted(bs, k - 1);
      }
    }
  }

  /**
   An allocation keeps the arena tiled and tidy, moves exactly the block's bytes from free
   to used, and pays for a split with one header.
   */
  lemma TakenTidy(bs: seq<Block>, i: nat, size: nat)
    requires Tidy(bs) && i < |bs| && bs[i].free && bs[i].size >= size && size % ALIGN == 0
    ensures var r := Taken(bs, i, size);
      && Tidy(r) && Bytes(r) == Bytes(bs) && i < |r| && !r[i].free && size <= r[i].size < size + 48
      && Used(r) == Used(bs) + r[i].size
      && Payload(r) + HEADER * |r| + r[i].size == Payload(bs) + HEADER * |bs|
  {
    SplitSums(bs, i, size);
    MarkSums(Split(bs, i, size), i, false);
    if bs[i].size >= size + MIN_SPLIT {
      SplitTidy(bs, i, size);
    } else {
      assert SizeOk(bs[i]);
      forall k | 0 <= k < |bs| - 1 ensures Parted(Taken(bs, i, size), k) {
        assert Parted(bs, k);
      }
    }
  }

  // ---------------------------------------------------------------- freeing

  lemma JoinedSums(bs: seq<Block>, i: nat)
    requires i + 1 < |bs| && bs[i].free && bs[i + 1].free
    ensures Bytes(Joined(bs, i)) == Bytes(bs) && Used(Joined(bs, i)) == Used(bs)
    ensures Payload(Joined(bs, i)) + HEADER * |Joined(bs, i)| == Payload(bs) + HEADER * |bs|
  {
    var a, b := bs[..i], bs[i + 2..];
    var x := bs[i].(size := bs[i].size + HEADER + bs[i + 1].size);
    assert bs == a + [bs[i], bs[i + 1]] + b;
    Around(a, [bs[i], bs[i + 1]], b);
    Around(a, [x], b);
    Two(bs[i], bs[i + 1]);
    One(bs[i]);
    One(bs[i + 1]);
    One(x);
  }

  /** Tidy but for the neighbours of block `i`. */
  ghost predicate TidyBut(bs: seq<Block>, i: nat) {
    && i < |bs| && bs[i].free && bs[|bs| - 1].size > 0
    && (forall k :: 0 <= k < |bs| ==> SizeOk(bs[k]))
    && (forall k :: 0 <= k < |bs| - 1 && k != i && k + 1 != i ==> Parted(bs, k))
  }

  lemma JoinNextTidy(bs: seq<Block>, i: nat)
    requires TidyBut(bs, i)
    ensures var r := JoinNext(bs, i);
      TidyBut(r, i) && !(i + 1 < |r| && r[i + 1].free) && r[..i] == bs[..i]
  {
    if i + 1 < |bs| && bs[i + 1].free {
      JoinedTidy(bs, i);
    }
  }

  lemma JoinedTidy(bs: seq<Block>, i: nat)
    requires TidyBut(bs, i) && i + 1 < |bs| && bs[i + 1].free
    ensures TidyBut(Joined(bs, i), i) && (i + 1 < |bs| - 1 ==> !Joined(bs, i)[i + 1].free) && Joined(bs, i)[..i] == bs[..i]
  {
    var r := Joined(bs, i);
    assert |r| == |bs| - 1;
    assert forall k :: 0 <= k < i ==> r[k] == bs[k];
    assert forall k :: i < k < |r| ==> r[k] == bs[k + 1];
    assert SizeOk(bs[i]) && SizeOk(bs[i + 1]);
    assert i + 1 < |r| ==> Parted(bs, i + 1);
    forall k | 0 <= k < |r| - 1 && k != i && k + 1 != i ensures Parted(r, k) {
      if k < i {
        assert Parted(bs, k);
      } else {
        assert Parted(bs, k + 1);
      }
    }
  }

  lemma JoinPrevTidy(bs: seq<Block>, i: nat)
    requires TidyBut(bs, i) && !(i + 1 < |bs| && bs[i + 1].free)
    ensures Tidy(JoinPrev(bs, i))
  {
    var r := JoinPrev(bs, i);
    if i > 0 && bs[i - 1].free {
      assert forall k :: 0 <= k < i - 1 ==> r[k] == bs[k];
      assert forall k :: i - 1 < k < |r| ==> r[k] == bs[k + 1];
      assert SizeOk(bs[i - 1]) && SizeOk(bs[i]);
      forall k | 0 <= k < |r| - 1 ensures Parted(r, k) {
        assert k < i - 1 ==> Parted(bs, k);
        assert k > i - 1 ==> Parted(bs, k + 1);
      }
    } else {
      forall k | 0 <= k < |r| - 1 ensures Parted(r, k) {
        assert k != i && k + 1 != i ==> Parted(bs, k);
      }
    }
  }

  /** Freeing keeps the arena tiled and tidy and moves exactly the block's bytes back. */
  lemma FreedTidy(bs: seq<Block>, i: nat)
    requires Tidy(bs) && i < |bs| && !bs[i].free
    ensures var r := Freed(bs, i);
      && Tidy(r) && Bytes(r) == Bytes(bs) && Used(r) + bs[i].size == Used(bs)
      && Payload(r) + HEADER * |r| == Payload(bs) + HEADER * |bs| + bs[i].size
  {
    var m := Mark(bs, i, true);
    MarkSums(bs, i, true);
    MarkTidyBut(bs, i);
    JoinNextTidy(m, i);
    JoinNextSums(m, i);
    JoinPrevTidy(JoinNext(m, i), i);
    JoinPrevSums(JoinNext(m, i), i);
  }

  lemma MarkTidyBut(bs: seq<Block>, i: nat)
    requires Tidy(bs) && i < |bs|
    ensures TidyBut(Mark(bs, i, true), i)
  {
    var m := Mark(bs, i, true);
    assert forall k :: 0 <= k < |m| && k != i ==> m[k] == bs[k];
    assert SizeOk(bs[i]);
    forall k | 0 <= k < |m| - 1 && k != i && k + 1 != i ensures Parted(m, k) {
      assert Parted(bs, k);
    }
  }

  lemma JoinNextSums(bs: seq<Block>, i: nat)
    requires i < |bs| && bs[i].free
    ensures var r := JoinNext(bs, i);
      Bytes(r) == Bytes(bs) && Used(r) == Used(bs) && Payload(r) + HEADER * |r| == Payload(bs) + HEADER * |bs|
  {
    if i + 1 < |bs| && bs[i + 1].free {
      JoinedSums(bs, i);
    }
  }

  lemma JoinPrevSums(bs: seq<Block>, i: nat)
    requires i < |bs| && bs[i].free
    ensures var r := JoinPrev(bs, i);
      Bytes(r) == Bytes(bs) && Used(r) == Used(bs) && Payload(r) + HEADER * |r| == Payload(bs) + HEADER * |bs|
  {
    if i > 0 && bs[i - 1].free {
      JoinedSums(bs, i - 1);
    }
  }

  // ---------------------------------------------------------------- what this gives

  /** Freeing what was just allocated restores the block list. */
  lemma Restored(bs: seq<Block>, i: nat, size: nat)
    requires Tidy(bs) && i < |bs| && bs[i].free && bs[i].size >= size
    ensures i < |Taken(bs, i, size)| && Freed(Taken(bs, i, size), i) == bs
  {
    Rejoined(bs, i, size);
    assert i > 0 ==> Parted(bs, i - 1);
  }

  lemma Rejoined(bs: seq<Block>, i: nat, size: nat)
    requires Tidy(bs) && i < |bs| && bs[i].free && bs[i].size >= size
    ensures i < |Taken(bs, i, size)| && JoinNext(Mark(Taken(bs, i, size), i, true), i) == bs
  {
    assert i + 1 < |bs| ==> Parted(bs, i);
    if bs[i].size >= size + MIN_SPLIT {
      Unsplit(bs[..i], bs[i].size, bs[i + 1..], size);
      assert bs == bs[..i] + [Block(bs[i].size, true)] + bs[i + 1..];
    } else {
      assert Mark(Taken(bs, i, size), i, true) == bs;
    }
  }

  /** A split, marked used and free again, joins to what it was. */
  lemma Unsplit(a: seq<Block>, total: nat, b: seq<Block>, size: nat)
    requires total >= size + MIN_SPLIT
    ensures var bs := a + [Block(total, true)] + b;
      JoinNext(Mark(Taken(bs, |a|, size), |a|, true), |a|) == bs
  {
    var bs := a + [Block(total, true)] + b;
    var rest := Block(total - size - HEADER, true);
    assert bs[..|a|] == a && bs[|a| + 1..] == b;
    assert Taken(bs, |a|, size) == a + [Block(size, false), rest] + b;
    var m := a + [Block(size, true), rest] + b;
    assert Mark(Taken(bs, |a|, size), |a|, true) == m;
    assert m[..|a|] == a && m[|a| + 2..] == b;
  }

  lemma SomeUsed(bs: seq<Block>)
    requires Tidy(bs) && |bs| > 1
    ensures exists i :: 0 <= i < |bs| && !bs[i].free
  {
    assert Parted(bs, 0);
  }

  /** With nothing live an arena is one free block. */
  lemma AllFreeIsOne(bs: seq<Block>)
    requires Tidy(bs) && forall i :: 0 <= i < |bs| ==> bs[i].free
    ensures |bs| == 1 && bs[0].free && bs[0].size == Bytes(bs) - HEADER
  {
    if |bs| > 1 {
      SomeUsed(bs);
      assert false;
    }
    One(bs[0]);
    assert bs == [bs[0]];
  }

  /** No bytes are in use exactly when every block is free or empty. */
  lemma {:induction false} UsedZero(bs: seq<Block>)
    ensures Used(bs) == 0 <==> forall i :: 0 <= i < |bs| ==> bs[i].free || bs[i].size == 0
  {
    if bs != [] {
      UsedZero(bs[..|bs| - 1]);
    }
  }
}
