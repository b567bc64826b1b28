/**
 The intrusive FIFO behind mutexes and conditions (`wait_queue.c`): every queue is threaded
 through the same `wait_next` field, so a task can be in one queue at a time.
 */
module WaitQueue {
  import opened Wrappers

  const NONE: int := -1

  datatype Ends = Ends(head: int, tail: int)

  ghost function FirstOf(l: seq<nat>): int { if l == [] then NONE else l[0] }

  ghost function LastOf(l: seq<nat>): int { if l == [] then NONE else l[|l| - 1] }

  ghost predicate LinkOk(next: map<nat, int>, l: seq<nat>, k: nat)
    requires k < |l|
  {
    l[k] in next && next[l[k]] == FirstOf(l[k + 1..])
  }

  /** The links from `ends.head` spell the list. */
  ghost predicate Spells(next: map<nat, int>, ends: Ends, l: seq<nat>) {
    && ends == Ends(FirstOf(l), LastOf(l)) && NoDup(l)
    && forall k :: 0 <= k < |l| ==> LinkOk(next, l, k)
  }

  lemma Untouched(next: map<nat, int>, next': map<nat, int>, ends: Ends, l: seq<nat>)
    requires Spells(next, ends, l) && forall t :: t in l && t in next ==> t in next' && next'[t] == next[t]
    ensures Spells(next', ends, l)
  {
    forall k | 0 <= k < |l| ensures LinkOk(next', l, k) {
      assert LinkOk(next, l, k) && l[k] in l;
    }
  }

  /** What `wait_queue_enqueue` writes. */
  function Appended(next: map<nat, int>, tail: int, t: nat): map<nat, int> {
    if tail < 0 then next[t := NONE] else next[t := NONE][tail := t]
  }

  lemma AppendSpells(next: map<nat, int>, ends: Ends, l: seq<nat>, t: nat)
    requires Spells(next, ends, l) && t !in l
    ensures Spells(Appended(next, ends.tail, t), Ends(if l == [] then t else ends.head, t), l + [t])
  {
    var next', l' := Appended(next, ends.tail, t), l + [t];
    forall k | 0 <= k < |l'| ensures LinkOk(next', l', k) {
      if k < |l| {
        assert LinkOk(next, l, k) && l[k] in l;
        assert k + 1 < |l| ==> l'[k + 1..] == l[k + 1..] + [t] && l[k] != l[|l| - 1];
        assert k + 1 == |l| ==> l'[k + 1..] == [t];
      } else {
        assert l'[k + 1..] == [];
      }
    }
  }

  ghost function Cut(l: seq<nat>, k: nat): seq<nat>
    requires k < |l|
  {
    l[..k] + l[k + 1..]
  }

  ghost function Before(l: seq<nat>, k: nat): int
    requires k < |l|
  {
    if k == 0 then NONE else l[k - 1]
  }

  /** What unlinking `t` after `prev` writes. */
  function Unlinked(next: map<nat, int>, prev: int, t: nat): map<nat, int>
    requires t in next
  {
    if prev < 0 then next[t := NONE] else next[prev := next[t]][t := NONE]
  }

  lemma CutLink(next: map<nat, int>, ends: Ends, l: seq<nat>, k: nat, j: nat)
    requires Spells(next, ends, l) && k < |l| && l[k] in next && j < |l| - 1
    ensures LinkOk(Unlinked(next, Before(l, k), l[k]), Cut(l, k), j)
  {
    var l' := Cut(l, k);
    assert LinkOk(next, l, k);
    if j < k {
      assert LinkOk(next, l, j) && l'[j] == l[j] && l[j] != l[k];
      if j + 1 < k {
        assert l[j] != l[k - 1] && FirstOf(l'[j + 1..]) == l[j + 1] == FirstOf(l[j + 1..]);
      } else {
        assert l'[j + 1..] == l[k + 1..];
      }
    } else {
      assert LinkOk(next, l, j + 1) && l'[j] == l[j + 1] && l'[j + 1..] == l[j + 2..];
      assert l[j + 1] != l[k] && (k > 0 ==> l[j + 1] != l[k - 1]);
    }
  }

  lemma CutSpells(next: map<nat, int>, ends: Ends, l: seq<nat>, k: nat)
    requires Spells(next, ends, l) && k < |l|
    ensures l[k] in next
    ensures Spells(Unlinked(next, Before(l, k), l[k]),
                   Ends(if k == 0 then next[l[k]] else ends.head, if ends.tail == l[k] then Before(l, k) else ends.tail), Cut(l, k))
  {
    assert LinkOk(next, l, k);
    var l' := Cut(l, k);
    forall j | 0 <= j < |l'| ensures LinkOk(Unlinked(next, Before(l, k), l[k]), l', j) {
      CutLink(next, ends, l, k, j);
    }
    forall a, b | 0 <= a < b < |l'| ensures l'[a] != l'[b] {
      assert l'[a] == l[if a < k then a else a + 1] && l'[b] == l[if b < k then b else b + 1];
    }
    assert k < |l| - 1 ==> l[k] != l[|l| - 1];
  }

  class WaitQueues {
    var next: map<nat, int>              // `wait_next` of each task
    var ends: map<nat, Ends>             // head and tail of each queue
    ghost var lists: map<nat, seq<nat>>

    ghost predicate Valid()
      reads this
    {
      && ends.Keys == lists.Keys
      && (forall q :: q in lists ==> Spells(next, ends[q], lists[q]))
      && (forall q, r, t :: q in lists && r in lists && t in lists[q] && t in lists[r] ==> q == r)
    }

    method Contains(q: nat, t: nat) returns (found: bool)
      requires Valid() && q in ends
      ensures found <==> t in lists[q]
    {
      ghost var l, k := lists[q], 0;
      var cur := ends[q].head;
      assert l[0..] == l;
      while cur != NONE
        invariant 0 <= k <= |l| && cur == FirstOf(l[k..]) && forall j :: 0 <= j < k ==> l[j] != t
        decreases |l| - k
      {
        assert LinkOk(next, l, k);
        if cur == t {
          return true;
        }
        cur := next[cur];
        k := k + 1;
      }
      found := false;
    }

    /** At the tail, unless already there; the caller must not wait anywhere else. */
    method Enqueue(q: nat, t: nat) returns (ok: bool)
      requires Valid() && q in ends && forall r :: r in lists && r != q ==> t !in lists[r]
      modifies this
      ensures Valid() && (ok <==> t !in old(lists)[q])
      ensures lists == if ok then old(lists)[q := old(lists)[q] + [t]] else old(lists)
    {
      var found := Contains(q, t);
      if found {
        return false;
      }
      ghost var l := lists[q];
      AppendSpells(next, ends[q], l, t);
      OtherSpells(next, Appended(next, ends[q].tail, t), ends, lists, q, t, ends[q].tail);
      next := next[t := NONE];
      if ends[q].tail == NONE {
        ends := ends[q := Ends(t, t)];
      } else {
        next := next[ends[q].tail := t];
        ends := ends[q := Ends(ends[q].head, t)];
      }
      lists := lists[q := l + [t]];
      ok := true;
    }

    /** From the head. */
    method Dequeue(q: nat) returns (t: int)
      requires Valid() && q in ends
      modifies this
      ensures Valid() && t == FirstOf(old(lists)[q])
      ensures lists == if t == NONE then old(lists) else old(lists)[q := old(lists)[q][1..]]
    {
      if ends[q].head == NONE {
        return NONE;
      }
      ghost var l := lists[q];
      t := ends[q].head;
      CutSpells(next, ends[q], l, 0);
      OtherSpells(next, Unlinked(next, NONE, t), ends, lists, q, t, NONE);
      assert Cut(l, 0) == l[1..] && LinkOk(next, l, 0);
      assert next[t] == NONE <==> ends[q].tail == t by {
        assert |l| > 1 ==> l[0] != l[|l| - 1];
      }
      var head := next[t];
      ends := ends[q := Ends(head, if head == NONE then NONE else ends[q].tail)];
      next := next[t := NONE];
      lists := lists[q := l[1..]];
    }

    /** Take `t`, at place `k` after `prev`, out of queue `q`. */
    method Unlink(q: nat, t: nat, prev: int, ghost k: nat)
      requires Valid() && q in ends && k < |lists[q]| && t == lists[q][k] && prev == Before(lists[q], k)
      modifies this
      ensures Valid() && lists == old(lists)[q := Cut(old(lists)[q], k)]
    {
      ghost var l := lists[q];
      CutSpells(next, ends[q], l, k);
      Elsewhere(k, q);
      OtherSpells(next, Unlinked(next, prev, t), ends, lists, q, t, prev);
      StillApart(lists, q, k);
      var head := if prev == NONE then next[t] else ends[q].head;
      var tail := if ends[q].tail == t then prev else ends[q].tail;
      if prev != NONE {
        next := next[prev := next[t]];
      }
      next := next[t := NONE];
      ends := ends[q := Ends(head, tail)];
      lists := lists[q := Cut(l, k)];
    }

    /** The task at place `k` and the one before it are on no other queue. */
    lemma Elsewhere(k: nat, q: nat)
      requires Valid() && q in lists && k < |lists[q]|
      ensures forall r :: r in lists && r != q ==> lists[q][k] !in lists[r] && Before(lists[q], k) !in lists[r]
    {
      var l := lists[q];
      assert l[k] in l && (k > 0 ==> l[k - 1] in l);
    }

    /** From anywhere in the queue. */
    method Remove(q: nat, t: nat) returns (ok: bool)
      requires Valid() && q in ends
      modifies this
      ensures Valid() && (ok <==> t in old(lists)[q])
      ensures !ok ==> lists == old(lists)
      ensures ok ==> exists k :: 0 <= k < |old(lists)[q]| && old(lists)[q][k] == t && lists == old(lists)[q := Cut(old(lists)[q], k)]
    {
      ghost var l, k := lists[q], 0;
      var prev, cur := NONE, ends[q].head;
      assert l[0..] == l;
      while cur != NONE
        invariant next == old(next) && ends == old(ends) && lists == old(lists)
        invariant 0 <= k <= |l| && cur == FirstOf(l[k..]) && prev == (if k == 0 then NONE else l[k - 1])
        invariant forall j :: 0 <= j < k ==> l[j] != t
        decreases |l| - k
      {
        assert LinkOk(next, l, k);
        if cur == t {
          Unlink(q, t, prev, k);
          return true;
        }
        prev := cur;
        cur := next[cur];
        k := k + 1;
      }
      ok := false;
    }
  }

  lemma StillApart(lists: map<nat, seq<nat>>, q: nat, k: nat)
    requires q in lists && k < |lists[q]|
    requires forall q, r, t :: q in lists && r in lists && t in lists[q] && t in lists[r] ==> q == r
    ensures var ls := lists[q := Cut(lists[q], k)];
      forall q, r, t :: q in ls && r in ls && t in ls[q] && t in ls[r] ==> q == r
  {
    assert forall x :: x in Cut(lists[q], k) ==> x in lists[q];
  }

  /** A write confined to two tasks of one queue leaves the others spelled. */
  lemma OtherSpells(next: map<nat, int>, next': map<nat, int>, ends: map<nat, Ends>, lists: map<nat, seq<nat>>, q: nat, a: nat, b: int)
    requires q in lists && ends.Keys == lists.Keys && (forall r :: r in lists ==> Spells(next, ends[r], lists[r]))
    requires forall r :: r in lists && r != q ==> a !in lists[r] && b !in lists[r]
    requires forall t :: t in next && t != a && t != b ==> t in next' && next'[t] == next[t]
    ensures forall r :: r in lists && r != q ==> Spells(next', ends[r], lists[r])
  {
    forall r | r in lists && r != q ensures Spells(next', ends[r], lists[r]) {
      assert Spells(next, ends[r], lists[r]);
      Untouched(next, next', ends[r], lists[r]);
    }
  }
}
