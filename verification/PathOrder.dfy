/**
 The order in which a recursive walk of page tables visits them: a table before what hangs
 under it, and entries by index.  A path is the indices from the root.
 */
module PathOrder {

  /** The walk is at `p` before it is at `q`. */
  predicate Precedes(p: seq<nat>, q: seq<nat>) {
    q != [] && (p == [] || p[0] < q[0] || (p[0] == q[0] && Precedes(p[1..], q[1..])))
  }

  /** What precedes entry `i` of the table at `path`: the table, what hangs under earlier entries, and what precedes the table. */
  lemma {:induction false} PrecedesEntry(p: seq<nat>, path: seq<nat>, i: nat)
    ensures Precedes(p, path + [i]) <==> if path <= p then p == path || p[|path|] < i else Precedes(p, path)
    decreases |path|
  {
    if path != [] {
      assert (path + [i])[1..] == path[1..] + [i];
      if p != [] {
        PrecedesEntry(p[1..], path[1..], i);
        assert path <= p <==> p[0] == path[0] && path[1..] <= p[1..];
        assert p == path <==> p[0] == path[0] && p[1..] == path[1..];
      }
    } else {
      assert path + [i] == [i];
    }
  }

  lemma {:induction false} Irreflexive(p: seq<nat>)
    ensures !Precedes(p, p)
    decreases |p|
  {
    if p != [] {
      Irreflexive(p[1..]);
    }
  }

  lemma {:induction false} Transitive(p: seq<nat>, q: seq<nat>, r: seq<nat>)
    requires Precedes(p, q) && Precedes(q, r)
    ensures Precedes(p, r)
    decreases |p|
  {
    if p != [] && p[0] == q[0] == r[0] {
      Transitive(p[1..], q[1..], r[1..]);
    }
  }

  lemma {:induction false} Total(p: seq<nat>, q: seq<nat>)
    ensures p == q || Precedes(p, q) || Precedes(q, p)
    decreases |p|
  {
    if p != [] && q != [] && p[0] == q[0] {
      Total(p[1..], q[1..]);
      assert p[1..] == q[1..] ==> p == q by {
        assert p == [p[0]] + p[1..] && q == [q[0]] + q[1..];
      }
    }
  }
}
