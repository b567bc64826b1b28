/**
 `mmu_copy_user_range` from end to end: chunk by chunk, faulting pages in and breaking
 copy-on-write on the way.  `Transfer` says what that does to the eager machine and to the
 kernel's buffer; the lemmas after it say what `Transfer` means byte by byte.
 */
module UserCopy {
  import opened Descriptor
  import opened Pool
  import opened AddressSpace
  import opened Coupling
  import opened World
  import opened Region
  import opened Mmu
  import opened Wrappers

  /** A copy into (`write`) or out of context `c` of a process with these regions and break. */
  datatype Job = Job(c: nat, regions: seq<Region>, brk: nat, write: bool)

  // ---------------------------------------------------------------- what a copy does

  /** What one chunk does to the eager machine and to the buffer, if it goes through. */
  ghost function Moved(e: Eager, j: Job, va: nat, buf: Bytes): (r: Option<(Eager, Bytes)>)
    requires j.c in e
    ensures r.Some? ==> r.value.0.Keys == e.Keys && |r.value.1| == |buf|
  {
    var e1 := FaultedIn(e, j.c, j.regions, j.brk, va);
    if PathOf(va) !in e1[j.c] || |e1[j.c][PathOf(va)].bytes| != PAGE_SIZE then None
    else if j.write then Some((Stored(e1, j.c, va, buf), buf))
    else Some((e1, Loaded(e1, j.c, va, buf)))
  }

  /** `Moved`, sealed: proofs about whole copies only use the lemmas about one chunk. */
  ghost function SealedMove(n: nat, e: Eager, j: Job, va: nat, buf: Bytes): (r: Option<(Eager, Bytes)>)
    requires j.c in e
    ensures r.Some? ==> r.value.0.Keys == e.Keys && |r.value.1| == |buf|
    decreases n
  {
    if n == 0 then Moved(e, j, va, buf) else SealedMove(n - 1, e, j, va, buf)
  }

  ghost function Move(e: Eager, j: Job, va: nat, buf: Bytes): Option<(Eager, Bytes)>
    requires j.c in e
  {
    SealedMove(|buf|, e, j, va, buf)
  }

  lemma {:induction false} UnsealMove(n: nat, e: Eager, j: Job, va: nat, buf: Bytes)
    requires j.c in e
    ensures SealedMove(n, e, j, va, buf) == Moved(e, j, va, buf)
  {
    if n > 0 {
      UnsealMove(n - 1, e, j, va, buf);
    }
  }

  /** The whole copy, chunk after chunk. */
  ghost function Transfer(e: Eager, j: Job, va: nat, buf: Bytes): (r: Option<(Eager, Bytes)>)
    requires j.c in e
    ensures r.Some? ==> r.value.0.Keys == e.Keys && |r.value.1| == |buf|
    decreases |buf|
  {
    if buf == [] then Some((e, []))
    else
      match Move(e, j, va, buf)
      case None => None
      case Some((e1, out)) =>
        var n := Chunk(va, |buf|);
        Prepend(out[..n], Transfer(e1, j, (va + n) % WORD, buf[n..]))
  }

  ghost function Prepend(out: Bytes, rest: Option<(Eager, Bytes)>): Option<(Eager, Bytes)> {
    match rest
    case None => None
    case Some((e, more)) => Some((e, out + more))
  }

  /** Only this address space may change. */
  ghost predicate OnlyIn(e: Eager, c: nat, e': Eager) {
    e'.Keys == e.Keys && forall d :: d in e && d != c ==> e'[d] == e[d]
  }

  /** What is left to copy, from where, after `out`, completes the whole copy; sealed. */
  ghost predicate Upto(n: nat, e0: Eager, j: Job, va: nat, buf: Bytes, e: Eager, user: nat, left: Bytes, out: Bytes)
    requires j.c in e0 && j.c in e
    decreases n
  {
    if n == 0 then Transfer(e0, j, va, buf) == Prepend(out, Transfer(e, j, user, left))
    else Upto(n - 1, e0, j, va, buf, e, user, left, out)
  }

  lemma {:induction false} UnfoldUpto(n: nat, e0: Eager, j: Job, va: nat, buf: Bytes, e: Eager, user: nat, left: Bytes, out: Bytes)
    requires j.c in e0 && j.c in e
    ensures Upto(n, e0, j, va, buf, e, user, left, out)
       <==> Transfer(e0, j, va, buf) == Prepend(out, Transfer(e, j, user, left))
  {
    if n > 0 {
      UnfoldUpto(n - 1, e0, j, va, buf, e, user, left, out);
    }
  }

  lemma UptoStart(e0: Eager, j: Job, va: nat, buf: Bytes)
    requires j.c in e0
    ensures Upto(|buf|, e0, j, va, buf, e0, va, buf, [])
  {
    UnfoldUpto(|buf|, e0, j, va, buf, e0, va, buf, []);
    var r := Transfer(e0, j, va, buf);
    if r.Some? {
      assert [] + r.value.1 == r.value.1;
    }
  }

  lemma UptoNext(e0: Eager, j: Job, va: nat, buf: Bytes, e: Eager, user: nat, left: Bytes, out: Bytes, e1: Eager, moved: Bytes)
    requires j.c in e0 && j.c in e && left != [] && Upto(|buf|, e0, j, va, buf, e, user, left, out)
    requires Move(e, j, user, left) == Some((e1, moved))
    ensures var n := Chunk(user, |left|);
      Upto(|buf|, e0, j, va, buf, e1, (user + n) % WORD, left[n..], out + moved[..n])
  {
    var n := Chunk(user, |left|);
    UnfoldUpto(|buf|, e0, j, va, buf, e, user, left, out);
    UnfoldUpto(|buf|, e0, j, va, buf, e1, (user + n) % WORD, left[n..], out + moved[..n]);
    TransferStep(e, j, user, left, e1, moved);
    Regroup(out, moved[..n], Transfer(e1, j, (user + n) % WORD, left[n..]));
  }

  lemma TransferStep(e: Eager, j: Job, va: nat, buf: Bytes, e1: Eager, moved: Bytes)
    requires j.c in e && buf != [] && Move(e, j, va, buf) == Some((e1, moved))
    ensures var n := Chunk(va, |buf|);
      Transfer(e, j, va, buf) == Prepend(moved[..n], Transfer(e1, j, (va + n) % WORD, buf[n..]))
  {
  }

  lemma Regroup(a: Bytes, b: Bytes, r: Option<(Eager, Bytes)>)
    ensures Prepend(a, Prepend(b, r)) == Prepend(a + b, r)
  {
    if r.Some? {
      assert a + (b + r.value.1) == a + b + r.value.1;
    }
  }

  lemma UptoDone(e0: Eager, j: Job, va: nat, buf: Bytes, e: Eager, user: nat, out: Bytes)
    requires j.c in e0 && j.c in e && Upto(|buf|, e0, j, va, buf, e, user, [], out)
    ensures Transfer(e0, j, va, buf) == Some((e, out))
  {
    UnfoldUpto(|buf|, e0, j, va, buf, e, user, [], out);
    assert out + [] == out;
  }

  lemma MoveOnlyIn(e: Eager, j: Job, va: nat, buf: Bytes)
    requires j.c in e
    ensures OnlyIn(e, j.c, FaultedIn(e, j.c, j.regions, j.brk, va))
    ensures Move(e, j, va, buf).Some? ==> OnlyIn(e, j.c, Move(e, j, va, buf).value.0)
  {
    UnsealMove(|buf|, e, j, va, buf);
  }

  // ---------------------------------------------------------------- the code

  /** How many faults a chunk may still need: unmapped, copy-on-write, refused, granted. */
  ghost function Stage(w: World, c: nat, va: nat, write: bool): nat
    requires c in w.eager && c in w.s.ctxs
  {
    var e := Leaf(w.s, c, PathOf(va));
    if PathOf(va) !in w.eager[c] then 3
    else if Allowed(e, write) then 0
    else if e.Full? && e.attrs.ro && e.attrs.cow then 2
    else 1
  }

  /**
   Whether the page at `va` can be had: mapped with the right permission, or, for the current
   task's own address space, after breaking copy-on-write or after faulting it in.
   */
  ghost predicate CanMove(w: World, current: bool, j: Job, va: nat)
    requires j.c in w.s.ctxs && j.c in w.eager
  {
    if PathOf(va) in w.eager[j.c] then
      var e := Leaf(w.s, j.c, PathOf(va));
      Allowed(e, j.write) || (j.write && current && CowReady(w, j.c, PathOf(va)) && e.attrs.el0)
    else
      && current && FaultReady(w, j.c, j.regions, j.brk, va)
      && var a := FaultFill(j.regions, j.brk, va).value.attrs;
      && a.el0 && (!j.write || !a.ro || a.cow)
  }

  /** The page at `va` is mapped with the permission the copy needs. */
  ghost predicate Granted(w: World, j: Job, va: nat)
    requires j.c in w.s.ctxs && j.c in w.eager
  {
    PathOf(va) in w.eager[j.c] && Allowed(Leaf(w.s, j.c, PathOf(va)), j.write)
  }

  ghost predicate AllGranted(w: World, j: Job, va: nat, len: nat)
    requires j.c in w.s.ctxs && j.c in w.eager
  {
    forall k :: 0 <= k < len ==> GrantedAt(w, j, va, k)
  }

  ghost predicate GrantedAt(w: World, j: Job, va: nat, k: nat)
    requires j.c in w.s.ctxs && j.c in w.eager
  {
    Granted(w, j, va + k)
  }

  /** No mapping or permission changed. */
  ghost predicate SameMaps(w: World, w': World, c: nat) {
    && w'.s.tables == w.s.tables && w'.s.ctxs == w.s.ctxs && c in w.s.ctxs
    && c in w.eager && c in w'.eager && w'.eager[c].Keys == w.eager[c].Keys
  }

  /** A page that is not mapped is faulted in, if there is something to fill it with. */
  method FaultIn(m: Mmu, current: bool, j: Job, va: nat) returns (ok: bool)
    requires m.Valid() && j.c in m.ctxs && PathOf(va) !in m.eager[j.c]
    modifies m
    ensures m.Valid() && m.ctxs.Keys == old(m.ctxs).Keys && m.outside == old(m.outside) && m.all == old(m.all)
    ensures ok ==> m.eager == FaultedIn(old(m.eager), j.c, j.regions, j.brk, va) && PathOf(va) in m.eager[j.c] && current
    ensures !ok ==> m.eager == old(m.eager) && !CanMove(old(m.W()), current, j, va)
    ensures !current ==> m.W() == old(m.W())
    ensures ok ==> (CanMove(m.W(), current, j, va) <==> CanMove(old(m.W()), current, j, va))
  {
    if !current {
      return false;
    }
    ok := m.HandleFault(j.c, j.regions, j.brk, va, 0x04);
  }

  /** A page that may not be written is made writable, if it is copy-on-write. */
  method BreakCow(m: Mmu, current: bool, j: Job, va: nat) returns (ok: bool)
    requires m.Valid() && j.c in m.ctxs && PathOf(va) in m.eager[j.c]
    requires !Allowed(Leaf(m.W().s, j.c, PathOf(va)), j.write)
    modifies m
    ensures m.Valid() && m.ctxs.Keys == old(m.ctxs).Keys && m.outside == old(m.outside) && m.all == old(m.all)
    ensures m.eager == old(m.eager) && (ok ==> current && j.write)
    ensures ok ==> Leaf(old(m.W()).s, j.c, PathOf(va)).Full? && Writable(Leaf(m.W().s, j.c, PathOf(va)), Leaf(old(m.W()).s, j.c, PathOf(va)))
    ensures ok ==> Leaf(old(m.W()).s, j.c, PathOf(va)).attrs.ro && Leaf(old(m.W()).s, j.c, PathOf(va)).attrs.cow
    ensures !ok ==> !CanMove(old(m.W()), current, j, va)
    ensures !current ==> m.W() == old(m.W())
    ensures ok ==> (CanMove(m.W(), current, j, va) <==> CanMove(old(m.W()), current, j, va))
  {
    if !j.write || !current {
      return false;
    }
    ok := m.HandleFault(j.c, j.regions, j.brk, va, 0x0F);
  }

  /** The handler is asked to resolve what stopped a chunk; each success brings it closer. */
  method Retry(m: Mmu, current: bool, j: Job, va: nat, r: Access) returns (ok: bool)
    requires m.Valid() && j.c in m.ctxs && !r.Done?
    requires r.Missing? <==> PathOf(va) !in m.eager[j.c]
    requires r.Denied? ==> !Allowed(Leaf(m.W().s, j.c, PathOf(va)), j.write)
    modifies m
    ensures m.Valid() && m.ctxs.Keys == old(m.ctxs).Keys && m.outside == old(m.outside) && m.all == old(m.all)
    ensures ok ==> m.eager == FaultedIn(old(m.eager), j.c, j.regions, j.brk, va) && current
    ensures ok ==> Stage(m.W(), j.c, va, j.write) < Stage(old(m.W()), j.c, va, j.write)
    ensures !ok ==> m.eager == old(m.eager) && !CanMove(old(m.W()), current, j, va)
    ensures !current ==> m.W() == old(m.W())
    ensures ok ==> (CanMove(m.W(), current, j, va) <==> CanMove(old(m.W()), current, j, va))
  {
    if r.Missing? {
      ok := FaultIn(m, current, j, va);
    } else {
      ok := BreakCow(m, current, j, va);
    }
  }

  /** One attempt at a chunk. */
  method TryPage(m: Mmu, current: bool, j: Job, va: nat, buf: Bytes) returns (r: Access, out: Bytes)
    requires m.Valid() && j.c in m.ctxs
    modifies m
    ensures m.Valid() && m.ctxs == old(m.ctxs) && m.outside == old(m.outside) && m.all == old(m.all)
    ensures r.Missing? <==> PathOf(va) !in old(m.eager)[j.c]
    ensures r.Denied? <==> PathOf(va) in old(m.eager)[j.c] && !Allowed(Leaf(m.W().s, j.c, PathOf(va)), j.write)
    ensures !r.Done? ==> m.W() == old(m.W()) && !Granted(old(m.W()), j, va)
    ensures r.Done? ==> Move(old(m.eager), j, va, buf) == Some((m.eager, out))
    ensures r.Done? ==> CanMove(old(m.W()), current, j, va) && SameMaps(old(m.W()), m.W(), j.c)
  {
    UnsealMove(|buf|, m.eager, j, va, buf);
    r, out := m.CopyChunk(j.c, va, buf, j.write);
  }

  /** A chunk does the same whether its page was faulted in before or on the way. */
  lemma MoveAfterFault(e: Eager, j: Job, va: nat, buf: Bytes)
    requires j.c in e
    ensures Move(FaultedIn(e, j.c, j.regions, j.brk, va), j, va, buf) == Move(e, j, va, buf)
  {
    UnsealMove(|buf|, e, j, va, buf);
    UnsealMove(|buf|, FaultedIn(e, j.c, j.regions, j.brk, va), j, va, buf);
  }

  /**
   One chunk, retried after each fault the handler resolves; `current` allows faults.  It
   succeeds exactly when the page can be had.
   */
  method CopyPage(m: Mmu, current: bool, j: Job, va: nat, buf: Bytes) returns (ok: bool, out: Bytes)
    requires m.Valid() && j.c in m.ctxs
    modifies m
    ensures m.Valid() && m.ctxs.Keys == old(m.ctxs).Keys && m.outside == old(m.outside) && m.all == old(m.all)
    ensures ok <==> CanMove(old(m.W()), current, j, va)
    ensures ok ==> Move(old(m.eager), j, va, buf) == Some((m.eager, out))
    ensures !ok ==> m.eager == old(m.eager) || m.eager == FaultedIn(old(m.eager), j.c, j.regions, j.brk, va)
    ensures !current || Granted(old(m.W()), j, va) ==> SameMaps(old(m.W()), m.W(), j.c)
  {
    ghost var e0, w0 := m.eager, m.W();
    MoveAfterFault(e0, j, va, buf);
    while true
      invariant m.Valid() && m.ctxs.Keys == old(m.ctxs).Keys && m.outside == old(m.outside) && m.all == old(m.all)
      invariant m.eager == e0 || m.eager == FaultedIn(e0, j.c, j.regions, j.brk, va)
      invariant !current || Granted(w0, j, va) ==> m.W() == w0
      invariant CanMove(m.W(), current, j, va) <==> CanMove(w0, current, j, va)
      decreases Stage(m.W(), j.c, va, j.write)
    {
      var r: Access;
      r, out := TryPage(m, current, j, va, buf);
      if r.Done? {
        return true, out;
      }
      ok := Retry(m, current, j, va, r);
      if !ok {
        return false, out;
      }
    }
  }

  lemma GrantedByte(w: World, j: Job, va: nat, n: nat, k: nat)
    requires j.c in w.s.ctxs && j.c in w.eager && va % PAGE_SIZE + n <= PAGE_SIZE
    ensures k < n ==> (GrantedAt(w, j, va, k) <==> Granted(w, j, va))
    ensures k >= n ==> (GrantedAt(w, j, va, k) <==> GrantedAt(w, j, (va + n) % WORD, k - n))
  {
    if k < n {
      Within(va, k);
    } else {
      Ahead(va, n, k);
      SpanPath((va + n) % WORD + (k - n));
      SpanPath(va + k);
    }
  }

  /** The first page, then the rest. */
  lemma GrantedNext(w: World, j: Job, va: nat, len: nat)
    requires j.c in w.s.ctxs && j.c in w.eager && len > 0
    ensures var n := Chunk(va, len);
      AllGranted(w, j, va, len) <==> Granted(w, j, va) && AllGranted(w, j, (va + n) % WORD, len - n)
  {
    var n := Chunk(va, len);
    var next := (va + n) % WORD;
    GrantedByte(w, j, va, n, 0);
    if AllGranted(w, j, va, len) {
      assert GrantedAt(w, j, va, 0);
      forall i | 0 <= i < len - n ensures GrantedAt(w, j, next, i) {
        GrantedByte(w, j, va, n, n + i);
        assert GrantedAt(w, j, va, n + i);
      }
    }
    if Granted(w, j, va) && AllGranted(w, j, next, len - n) {
      forall k | 0 <= k < len ensures GrantedAt(w, j, va, k) {
        GrantedByte(w, j, va, n, k);
        assert k >= n ==> GrantedAt(w, j, next, k - n);
      }
    }
  }

  /** How the copy stands: what is mapped, what was granted and what is still to be. */
  ghost predicate Standing(n: nat, w0: World, w: World, current: bool, j: Job, va: nat, len: nat, user: nat, left: nat)
    requires j.c in w0.s.ctxs && j.c in w0.eager
    decreases n
  {
    if n == 0 then
      && (!current || AllGranted(w0, j, va, len) ==> SameMaps(w0, w, j.c))
      && (AllGranted(w0, j, va, len) ==> AllGranted(w0, j, user, left))
      && (!current && AllGranted(w0, j, user, left) ==> AllGranted(w0, j, va, len))
    else Standing(n - 1, w0, w, current, j, va, len, user, left)
  }

  lemma {:induction false} UnfoldStanding(n: nat, w0: World, w: World, current: bool, j: Job, va: nat, len: nat, user: nat, left: nat)
    requires j.c in w0.s.ctxs && j.c in w0.eager
    ensures Standing(n, w0, w, current, j, va, len, user, left) <==> Standing(0, w0, w, current, j, va, len, user, left)
  {
    if n > 0 {
      UnfoldStanding(n - 1, w0, w, current, j, va, len, user, left);
    }
  }

  lemma StandingNext(w0: World, w: World, w': World, current: bool, j: Job, va: nat, len: nat, user: nat, left: nat, ok: bool)
    requires j.c in w0.s.ctxs && j.c in w0.eager && j.c in w.s.ctxs && j.c in w.eager && left > 0
    requires Standing(len, w0, w, current, j, va, len, user, left)
    requires !current || Granted(w, j, user) ==> SameMaps(w, w', j.c)
    requires ok <==> CanMove(w, current, j, user)
    ensures ok ==> var n := Chunk(user, left); Standing(len, w0, w', current, j, va, len, (user + n) % WORD, left - n)
    ensures !ok ==> !AllGranted(w0, j, va, len)
  {
    var n := Chunk(user, left);
    UnfoldStanding(len, w0, w, current, j, va, len, user, left);
    UnfoldStanding(len, w0, w', current, j, va, len, (user + n) % WORD, left - n);
    GrantedNext(w0, j, user, left);
    assert !current || AllGranted(w0, j, va, len) ==> (Granted(w, j, user) <==> Granted(w0, j, user));
  }

  lemma StandingEnds(w0: World, w: World, current: bool, j: Job, va: nat, len: nat, user: nat)
    requires j.c in w0.s.ctxs && j.c in w0.eager
    ensures Standing(len, w0, w0, current, j, va, len, va, len)
    ensures Standing(len, w0, w, current, j, va, len, user, 0) && !current ==> AllGranted(w0, j, va, len)
  {
    UnfoldStanding(len, w0, w0, current, j, va, len, va, len);
    UnfoldStanding(len, w0, w, current, j, va, len, user, 0);
  }

  /**
   `mmu_copy_user_range`.  Success means the whole transfer; failure part way leaves what
   was copied, but no other address space ever changes.  A range mapped with the right
   permission never fails, and in an address space other than the current task's nothing
   else succeeds.
   */
  method CopyUserRange(m: Mmu, current: bool, j: Job, va: nat, buf: Bytes) returns (ok: bool, out: Bytes)
    requires m.Valid() && j.c in m.ctxs
    modifies m
    ensures m.Valid() && m.ctxs.Keys == old(m.ctxs).Keys && m.outside == old(m.outside) && m.all == old(m.all)
    ensures ok ==> Transfer(old(m.eager), j, va, buf) == Some((m.eager, out))
    ensures AllGranted(old(m.W()), j, va, |buf|) ==> ok
    ensures !current && ok ==> AllGranted(old(m.W()), j, va, |buf|)
    ensures OnlyIn(old(m.eager), j.c, m.eager)
  {
    ghost var e0, w0 := m.eager, m.W();
    var user: nat, left := va, buf;
    out := [];
    UptoStart(e0, j, va, buf);
    StandingEnds(w0, w0, current, j, va, |buf|, va);
    while left != []
      invariant m.Valid() && m.ctxs.Keys == old(m.ctxs).Keys && m.outside == old(m.outside) && m.all == old(m.all)
      invariant OnlyIn(e0, j.c, m.eager) && j.c in m.eager
      invariant Upto(|buf|, e0, j, va, buf, m.eager, user, left, out)
      invariant Standing(|buf|, w0, m.W(), current, j, va, |buf|, user, |left|)
      decreases |left|
    {
      ok, out, user, left := CopyNext(m, current, j, va, buf, user, left, out, w0);
      if !ok {
        return;
      }
    }
    UptoDone(e0, j, va, buf, m.eager, user, out);
    StandingEnds(w0, m.W(), current, j, va, |buf|, user);
    ok := true;
  }

  /** One turn of the loop. */
  method CopyNext(m: Mmu, current: bool, j: Job, ghost va: nat, ghost buf: Bytes, user: nat, left: Bytes, out: Bytes, ghost w0: World)
    returns (ok: bool, out': Bytes, user': nat, left': Bytes)
    requires m.Valid() && j.c in m.ctxs && left != []
    requires j.c in w0.s.ctxs && j.c in w0.eager && OnlyIn(w0.eager, j.c, m.eager)
    requires Upto(|buf|, w0.eager, j, va, buf, m.eager, user, left, out)
    requires Standing(|buf|, w0, m.W(), current, j, va, |buf|, user, |left|)
    modifies m
    ensures m.Valid() && m.ctxs.Keys == old(m.ctxs).Keys && m.outside == old(m.outside) && m.all == old(m.all)
    ensures OnlyIn(w0.eager, j.c, m.eager) && j.c in m.eager
    ensures ok ==> |left'| < |left| && Upto(|buf|, w0.eager, j, va, buf, m.eager, user', left', out')
    ensures ok ==> Standing(|buf|, w0, m.W(), current, j, va, |buf|, user', |left'|)
    ensures !ok ==> !AllGranted(w0, j, va, |buf|)
  {
    ghost var e, w := m.eager, m.W();
    var n := Chunk(user, |left|);
    var moved: Bytes;
    out', user', left' := out, user, left;
    ok, moved := CopyPage(m, current, j, user, left);
    MoveOnlyIn(e, j, user, left);
    StandingNext(w0, w, m.W(), current, j, va, |buf|, user, |left|, ok);
    if ok {
      UptoNext(w0.eager, j, va, buf, e, user, left, out, m.eager, moved);
      out' := out + moved[..n];
      user' := (user + n) % WORD;
      left' := left[n..];
    }
  }

  // ---------------------------------------------------------------- byte by byte

  const SPAN: nat := 0x1_0000_0000_0000   // what four table levels translate

  ghost predicate Holds(m: map<Path, UserPage>, va: nat, b: Byte) {
    PathOf(va) in m && va % PAGE_SIZE < |m[PathOf(va)].bytes| && m[PathOf(va)].bytes[va % PAGE_SIZE] == b
  }

  /** Table indices and page offset determine the address up to the span of the tables. */
  lemma SamePlace(a: nat, b: nat)
    requires PathOf(a) == PathOf(b) && a % PAGE_SIZE == b % PAGE_SIZE
    ensures a % SPAN == b % SPAN
  {
    Recompose(a);
    Recompose(b);
    assert PathOf(a)[0] == PathOf(b)[0] && PathOf(a)[1] == PathOf(b)[1];
    assert PathOf(a)[2] == PathOf(b)[2] && PathOf(a)[3] == PathOf(b)[3];
  }

  lemma Recompose(a: nat)
    ensures var p := PathOf(a);
      a % SPAN == p[0] * 0x80_0000_0000 + p[1] * 0x4000_0000 + p[2] * 0x20_0000 + p[3] * 0x1000 + a % PAGE_SIZE
  {
    var q := a / 0x80_0000_0000;
    assert (a / 0x1000) / 512 == a / 0x20_0000;
    assert (a / 0x20_0000) / 512 == a / 0x4000_0000;
    assert (a / 0x4000_0000) / 512 == q;
    assert a == q * 0x80_0000_0000 + a % 0x80_0000_0000;
    assert q == q / 512 * 512 + q % 512;
  }

  /** Bytes of one page share their path. */
  lemma Within(va: nat, k: nat)
    requires va % PAGE_SIZE + k < PAGE_SIZE
    ensures PathOf(va + k) == PathOf(va) && (va + k) % PAGE_SIZE == va % PAGE_SIZE + k
  {
    InPage(va, k);
    PathOfPage(va);
    PathOfPage(va + k);
  }

  lemma InPage(va: nat, k: nat)
    requires va % 4096 + k < 4096
    ensures (va + k) % 4096 == va % 4096 + k
  {
  }

  lemma Digit0(a: nat, h: nat, b: nat)
    requires a == h * 0x1_0000_0000_0000 + b
    ensures a / 0x80_0000_0000 % 512 == b / 0x80_0000_0000 % 512
  {
    assert a / 0x80_0000_0000 == h * 0x200 + b / 0x80_0000_0000;
  }

  lemma Digit1(a: nat, h: nat, b: nat)
    requires a == h * 0x1_0000_0000_0000 + b
    ensures a / 0x4000_0000 % 512 == b / 0x4000_0000 % 512
  {
    assert a / 0x4000_0000 == h * 0x4_0000 + b / 0x4000_0000;
  }

  lemma Digit2(a: nat, h: nat, b: nat)
    requires a == h * 0x1_0000_0000_0000 + b
    ensures a / 0x20_0000 % 512 == b / 0x20_0000 % 512
  {
    assert a / 0x20_0000 == h * 0x800_0000 + b / 0x20_0000;
  }

  lemma Digit3(a: nat, h: nat, b: nat)
    requires a == h * 0x1_0000_0000_0000 + b
    ensures a / 0x1000 % 512 == b / 0x1000 % 512
  {
    assert a / 0x1000 == h * 0x10_0000_0000 + b / 0x1000;
  }

  /** Addresses a span apart are the same place. */
  lemma SpanPath(a: nat)
    ensures PathOf(a % SPAN) == PathOf(a) && (a % SPAN) % PAGE_SIZE == a % PAGE_SIZE
  {
    Digit0(a, a / SPAN, a % SPAN);
    Digit1(a, a / SPAN, a % SPAN);
    Digit2(a, a / SPAN, a % SPAN);
    Digit3(a, a / SPAN, a % SPAN);
    SpanOffset(a);
  }

  lemma SpanOffset(a: nat)
    ensures a % 0x1_0000_0000_0000 % 4096 == a % 4096
  {
  }

  lemma SpanHolds(m: map<Path, UserPage>, a: nat, a': nat, b: Byte)
    requires a % SPAN == a' % SPAN && Holds(m, a, b)
    ensures Holds(m, a', b)
  {
    SpanPath(a);
    SpanPath(a');
  }

  /** Address `a` is not one of the `len` addresses from `va`. */
  ghost predicate Apart(va: nat, len: nat, a: nat) {
    (a - va) % SPAN >= len
  }

  lemma Offset(a: nat, va: nat, k: nat)
    requires a % SPAN == (va + k) % SPAN && k < SPAN
    ensures (a - va) % SPAN == k
  {
  }

  /** A chunk changes no byte but those it stores. */
  lemma MoveFrame(e: Eager, j: Job, va: nat, buf: Bytes, a: nat, b: Byte)
    requires j.c in e && Move(e, j, va, buf).Some? && Holds(e[j.c], a, b)
    requires j.write ==> Apart(va, Chunk(va, |buf|), a)
    ensures Holds(Move(e, j, va, buf).value.0[j.c], a, b)
  {
    UnsealMove(|buf|, e, j, va, buf);
    var at, n := va % PAGE_SIZE, Chunk(va, |buf|);
    if j.write && PathOf(a) == PathOf(va) && at <= a % PAGE_SIZE < at + n {
      var k := a % PAGE_SIZE - at;
      Within(va, k);
      SamePlace(a, va + k);
      Offset(a, va, k);
    }
  }

  /** A chunk leaves buffer and memory equal. */
  lemma MoveBytes(e: Eager, j: Job, va: nat, buf: Bytes, k: nat)
    requires j.c in e && Move(e, j, va, buf).Some? && k < Chunk(va, |buf|)
    ensures var (e1, out) := Move(e, j, va, buf).value; Holds(e1[j.c], va + k, out[k])
    ensures j.write ==> Move(e, j, va, buf).value.1 == buf
  {
    UnsealMove(|buf|, e, j, va, buf);
    Within(va, k);
  }

  /** A copy into memory changes only the bytes it names; a copy out changes none. */
  lemma {:induction false} TransferFrame(e: Eager, j: Job, va: nat, buf: Bytes, a: nat, b: Byte)
    requires j.c in e && Transfer(e, j, va, buf).Some? && Holds(e[j.c], a, b)
    requires j.write ==> Apart(va, |buf|, a)
    ensures var e' := Transfer(e, j, va, buf).value.0; OnlyIn(e, j.c, e') && Holds(e'[j.c], a, b)
    decreases |buf|
  {
    if buf != [] {
      var n := Chunk(va, |buf|);
      var (e1, out) := Move(e, j, va, buf).value;
      MoveOnlyIn(e, j, va, buf);
      ApartNext(va, n, |buf|, a);
      MoveFrame(e, j, va, buf, a, b);
      TransferFrame(e1, j, (va + n) % WORD, buf[n..], a, b);
    }
  }

  lemma ApartNext(va: nat, n: nat, len: nat, a: nat)
    requires n <= len
    ensures Apart(va, len, a) ==> Apart(va, n, a) && Apart((va + n) % WORD, len - n, a)
  {
  }

  /** After a copy of at most a span, memory and buffer agree at every byte. */
  lemma {:induction false} TransferBytes(e: Eager, j: Job, va: nat, buf: Bytes, k: nat)
    requires j.c in e && Transfer(e, j, va, buf).Some? && k < |buf| <= SPAN
    ensures Holds(Transfer(e, j, va, buf).value.0[j.c], va + k, Transfer(e, j, va, buf).value.1[k])
    decreases |buf|, 0
  {
    var n := Chunk(va, |buf|);
    var (e1, moved) := Move(e, j, va, buf).value;
    TransferStep(e, j, va, buf, e1, moved);
    var rest := Transfer(e1, j, (va + n) % WORD, buf[n..]);
    assert rest.Some? && Transfer(e, j, va, buf).value == (rest.value.0, moved[..n] + rest.value.1);
    if k < n {
      FirstBytes(e, j, va, buf, k, e1, moved);
    } else {
      LaterBytes(e1, j, va, n, buf[n..], k - n);
    }
  }

  lemma {:induction false} LaterBytes(e: Eager, j: Job, va: nat, n: nat, rest: Bytes, k: nat)
    requires j.c in e && Transfer(e, j, (va + n) % WORD, rest).Some? && k < |rest| <= SPAN
    ensures var r := Transfer(e, j, (va + n) % WORD, rest).value; Holds(r.0[j.c], va + n + k, r.1[k])
    decreases |rest|, 1
  {
    TransferBytes(e, j, (va + n) % WORD, rest, k);
    Ahead(va, n, n + k);
    var r := Transfer(e, j, (va + n) % WORD, rest).value;
    SpanHolds(r.0[j.c], (va + n) % WORD + k, va + n + k, r.1[k]);
  }

  /** The bytes of the first chunk outlive the chunks after it. */
  lemma FirstBytes(e: Eager, j: Job, va: nat, buf: Bytes, k: nat, e1: Eager, moved: Bytes)
    requires j.c in e && Move(e, j, va, buf) == Some((e1, moved))
    requires k < Chunk(va, |buf|) && |buf| <= SPAN
    requires Transfer(e1, j, (va + Chunk(va, |buf|)) % WORD, buf[Chunk(va, |buf|)..]).Some?
    ensures var n := Chunk(va, |buf|);
      Holds(Transfer(e1, j, (va + n) % WORD, buf[n..]).value.0[j.c], va + k, moved[k])
  {
    var n := Chunk(va, |buf|);
    MoveBytes(e, j, va, buf, k);
    Behind(va, n, |buf|, k);
    TransferFrame(e1, j, (va + n) % WORD, buf[n..], va + k, moved[k]);
  }

  /** A copy into memory stores the buffer itself. */
  lemma {:induction false} TransferStores(e: Eager, j: Job, va: nat, buf: Bytes)
    requires j.c in e && Transfer(e, j, va, buf).Some? && j.write
    ensures Transfer(e, j, va, buf).value.1 == buf
    decreases |buf|
  {
    if buf != [] {
      var n := Chunk(va, |buf|);
      UnsealMove(|buf|, e, j, va, buf);
      TransferStores(Move(e, j, va, buf).value.0, j, (va + n) % WORD, buf[n..]);
      assert buf == buf[..n] + buf[n..];
    }
  }

  lemma Behind(va: nat, n: nat, len: nat, k: nat)
    requires k < n <= len <= SPAN
    ensures Apart((va + n) % WORD, len - n, va + k)
  {
  }

  lemma Ahead(va: nat, n: nat, k: nat)
    requires n <= k
    ensures ((va + n) % WORD + (k - n)) % SPAN == (va + k) % SPAN
  {
  }
}
