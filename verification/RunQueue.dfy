/**
 The per-processor run queues of the scheduler (`sched.c`): lists threaded through the task
 table by `rq_next`, with a head, a tail and a length each.  `queues` is what the links spell.
 */
module RunQueue {
  import opened Wrappers

  const MAX_TASKS: nat := 32
  const CPUS: nat := 4
  const NONE: int := -1

  datatype TaskState = Running | Ready | Blocked | Dead | Zombie | Reaping

  /** A task slot.  `cpu`, `rqCpu`, `parent` and `rqNext` are `NONE` where the source has no value. */
  datatype Task = Task(used: bool, id: nat, state: TaskState, cpu: int, kill: bool, wake: bool, sleep: nat, parent: int,
                       rqCpu: int, onRq: bool, rqNext: int)

  datatype Queue = Queue(head: int, tail: int, nr: nat)

  ghost function FirstOf(q: seq<nat>): int { if q == [] then NONE else q[0] }

  ghost function LastOf(q: seq<nat>): int { if q == [] then NONE else q[|q| - 1] }

  ghost predicate LinkOk(tasks: seq<Task>, q: seq<nat>, k: nat, cpu: nat)
    requires k < |q|
  {
    && CPUS <= q[k] < |tasks|
    && tasks[q[k]].onRq && tasks[q[k]].rqCpu == cpu && tasks[q[k]].rqNext == FirstOf(q[k + 1..])
  }

  /** The links of one queue spell `q`. */
  ghost predicate Chained(tasks: seq<Task>, rq: Queue, q: seq<nat>, cpu: nat) {
    && rq.head == FirstOf(q) && rq.tail == LastOf(q) && rq.nr == |q| && NoDup(q)
    && forall k :: 0 <= k < |q| ==> LinkOk(tasks, q, k, cpu)
  }

  /** A task marked as queued is in the queue it names; idle tasks and empty slots never are. */
  ghost predicate Placed(tasks: seq<Task>, queues: seq<seq<nat>>, t: nat)
    requires t < |tasks| && |queues| == CPUS
  {
    && (tasks[t].onRq ==> 0 <= tasks[t].rqCpu < CPUS && t in queues[tasks[t].rqCpu] && tasks[t].used)
    && (t < CPUS ==> tasks[t].used && tasks[t].id == t)
    && (t >= CPUS ==> if tasks[t].used then tasks[t].id >= CPUS else tasks[t].id == 0)
  }

  ghost predicate Linked(tasks: seq<Task>, rqs: seq<Queue>, queues: seq<seq<nat>>) {
    && |tasks| == MAX_TASKS && |rqs| == CPUS && |queues| == CPUS
    && (forall c :: 0 <= c < CPUS ==> Chained(tasks, rqs[c], queues[c], c))
    && (forall t :: 0 <= t < MAX_TASKS ==> Placed(tasks, queues, t))
  }

  /** Membership and mark are the same thing, and a task is in one queue at most. */
  lemma Queued(tasks: seq<Task>, rqs: seq<Queue>, queues: seq<seq<nat>>, t: nat, c: nat)
    requires Linked(tasks, rqs, queues) && t < MAX_TASKS && c < CPUS
    ensures t in queues[c] <==> tasks[t].onRq && tasks[t].rqCpu == c
    ensures t in queues[c] ==> t >= CPUS
  {
    if t in queues[c] {
      var k :| 0 <= k < |queues[c]| && queues[c][k] == t;
      assert Chained(tasks, rqs[c], queues[c], c) && LinkOk(tasks, queues[c], k, c);
    }
    assert Placed(tasks, queues, t);
  }

  /** A queue none of whose tasks changed is still spelled. */
  lemma ChainFrame(tasks: seq<Task>, tasks': seq<Task>, rq: Queue, q: seq<nat>, cpu: nat)
    requires Chained(tasks, rq, q, cpu) && |tasks'| == |tasks|
    requires forall t :: 0 <= t < |tasks| && t in q ==> SameLinks(tasks[t], tasks'[t])
    ensures Chained(tasks', rq, q, cpu)
  {
    forall k | 0 <= k < |q| ensures LinkOk(tasks', q, k, cpu) {
      assert LinkOk(tasks, q, k, cpu);
      assert q[k] in q;
    }
  }

  predicate SameLinks(a: Task, b: Task) {
    a.rqCpu == b.rqCpu && a.onRq == b.onRq && a.rqNext == b.rqNext
  }

  // ---------------------------------------------------------------- append

  function Joining(t: Task, cpu: nat): Task { t.(rqCpu := cpu, rqNext := NONE, onRq := true) }

  /** What `sched_rq_enqueue_locked` writes: the new tail, and the old tail's link. */
  function Appended(tasks: seq<Task>, tail: int, t: nat, cpu: nat): seq<Task>
    requires t < |tasks|
  {
    var s := tasks[t := Joining(tasks[t], cpu)];
    if 0 <= tail < |s| then s[tail := s[tail].(rqNext := t)] else s
  }

  lemma AppendChain(tasks: seq<Task>, rq: Queue, q: seq<nat>, t: nat, cpu: nat)
    requires Chained(tasks, rq, q, cpu) && CPUS <= t < |tasks| && t !in q
    ensures Chained(Appended(tasks, rq.tail, t, cpu), Queue(if q == [] then t else rq.head, t, rq.nr + 1), q + [t], cpu)
  {
    var tasks' := Appended(tasks, rq.tail, t, cpu);
    var q' := q + [t];
    forall k | 0 <= k < |q'| ensures LinkOk(tasks', q', k, cpu) {
      if k < |q| {
        assert LinkOk(tasks, q, k, cpu);
        assert q[k] in q && q'[k] == q[k];
        if k + 1 < |q| {
          assert q'[k + 1..] == q[k + 1..] + [t];
          assert q[k] != q[|q| - 1];
        } else {
          assert q'[k + 1..] == [t];
        }
      } else {
        assert q'[k + 1..] == [];
      }
    }
  }

  lemma AppendOther(tasks: seq<Task>, rqs: seq<Queue>, queues: seq<seq<nat>>, t: nat, cpu: nat, c: nat)
    requires Linked(tasks, rqs, queues) && t < MAX_TASKS && cpu < CPUS && c < CPUS && c != cpu && !tasks[t].onRq
    ensures Chained(Appended(tasks, rqs[cpu].tail, t, cpu), rqs[c], queues[c], c)
  {
    var tasks' := Appended(tasks, rqs[cpu].tail, t, cpu);
    assert Chained(tasks, rqs[cpu], queues[cpu], cpu);
    forall u | 0 <= u < |tasks| && u in queues[c] ensures SameLinks(tasks[u], tasks'[u]) {
      Queued(tasks, rqs, queues, u, c);
      if u == rqs[cpu].tail {
        assert u in queues[cpu];
        Queued(tasks, rqs, queues, u, cpu);
      }
    }
    ChainFrame(tasks, tasks', rqs[c], queues[c], c);
  }

  lemma AppendLinked(tasks: seq<Task>, rqs: seq<Queue>, queues: seq<seq<nat>>, t: nat, cpu: nat)
    requires Linked(tasks, rqs, queues) && CPUS <= t < MAX_TASKS && cpu < CPUS && !tasks[t].onRq && tasks[t].used
    ensures var q := queues[cpu];
      Linked(Appended(tasks, rqs[cpu].tail, t, cpu),
             rqs[cpu := Queue(if q == [] then t else rqs[cpu].head, t, rqs[cpu].nr + 1)], queues[cpu := q + [t]])
  {
    var tasks' := Appended(tasks, rqs[cpu].tail, t, cpu);
    var queues' := queues[cpu := queues[cpu] + [t]];
    assert Chained(tasks, rqs[cpu], queues[cpu], cpu);
    Queued(tasks, rqs, queues, t, cpu);
    AppendChain(tasks, rqs[cpu], queues[cpu], t, cpu);
    forall c | 0 <= c < CPUS && c != cpu ensures Chained(tasks', rqs[c], queues[c], c) {
      AppendOther(tasks, rqs, queues, t, cpu, c);
    }
    forall u | 0 <= u < MAX_TASKS ensures Placed(tasks', queues', u) {
      assert Placed(tasks, queues, u);
    }
  }

  // ---------------------------------------------------------------- unlink

  function Leaving(t: Task): Task { t.(rqNext := NONE, onRq := false) }

  /** What unlinking `t` writes: its own marks, and the link of the task before it. */
  function Unlinked(tasks: seq<Task>, prev: int, t: nat): seq<Task>
    requires t < |tasks|
  {
    var s := if 0 <= prev < |tasks| then tasks[prev := tasks[prev].(rqNext := tasks[t].rqNext)] else tasks;
    s[t := Leaving(s[t])]
  }

  ghost function Cut(q: seq<nat>, k: nat): seq<nat>
    requires k < |q|
  {
    q[..k] + q[k + 1..]
  }

  ghost function Before(q: seq<nat>, k: nat): int
    requires k < |q|
  {
    if k == 0 then NONE else q[k - 1]
  }

  /** The queue record after the task at place `k`, with `next` after it, is unlinked. */
  function CutRecord(rq: Queue, prev: int, t: int, next: int): Queue {
    Queue(if prev == NONE then next else rq.head, if rq.tail == t then prev else rq.tail, if rq.nr > 0 then rq.nr - 1 else 0)
  }

  lemma UnlinkChain(tasks: seq<Task>, rq: Queue, q: seq<nat>, k: nat, cpu: nat)
    requires Chained(tasks, rq, q, cpu) && k < |q| && q[k] < |tasks|
    ensures Chained(Unlinked(tasks, Before(q, k), q[k]), CutRecord(rq, Before(q, k), q[k], tasks[q[k]].rqNext), Cut(q, k), cpu)
  {
    var t, prev, q' := q[k], Before(q, k), Cut(q, k);
    var tasks' := Unlinked(tasks, prev, t);
    assert LinkOk(tasks, q, k, cpu);
    assert k > 0 ==> LinkOk(tasks, q, k - 1, cpu);
    forall j | 0 <= j < |q'| ensures LinkOk(tasks', q', j, cpu) {
      if j < k {
        UnlinkBefore(tasks, rq, q, k, cpu, j);
      } else {
        UnlinkAfter(tasks, rq, q, k, cpu, j);
      }
    }
    assert q[k + 1..] == q'[k..];
    forall a, b | 0 <= a < b < |q'| ensures q'[a] != q'[b] {
      assert q'[a] == q[if a < k then a else a + 1] && q'[b] == q[if b < k then b else b + 1];
    }
  }

  lemma UnlinkBefore(tasks: seq<Task>, rq: Queue, q: seq<nat>, k: nat, cpu: nat, j: nat)
    requires Chained(tasks, rq, q, cpu) && k < |q| && q[k] < |tasks| && j < k
    ensures LinkOk(Unlinked(tasks, Before(q, k), q[k]), Cut(q, k), j, cpu)
  {
    var q' := Cut(q, k);
    assert LinkOk(tasks, q, j, cpu) && LinkOk(tasks, q, k, cpu);
    assert q'[j] == q[j] && q[j] != q[k];
    if j + 1 < k {
      assert FirstOf(q'[j + 1..]) == q[j + 1] == FirstOf(q[j + 1..]);
      assert q[j] != q[k - 1];
    } else {
      assert q'[j + 1..] == q[k + 1..];
    }
  }

  lemma UnlinkAfter(tasks: seq<Task>, rq: Queue, q: seq<nat>, k: nat, cpu: nat, j: nat)
    requires Chained(tasks, rq, q, cpu) && k < |q| && q[k] < |tasks| && k <= j < |q| - 1
    ensures LinkOk(Unlinked(tasks, Before(q, k), q[k]), Cut(q, k), j, cpu)
  {
    var q' := Cut(q, k);
    assert LinkOk(tasks, q, j + 1, cpu);
    assert q'[j] == q[j + 1] && q'[j + 1..] == q[j + 2..];
    assert q[j + 1] != q[k] && (k > 0 ==> q[j + 1] != q[k - 1]);
  }

  lemma UnlinkOther(tasks: seq<Task>, rqs: seq<Queue>, queues: seq<seq<nat>>, cpu: nat, k: nat, c: nat)
    requires Linked(tasks, rqs, queues) && cpu < CPUS && k < |queues[cpu]| && c < CPUS && c != cpu
    requires queues[cpu][k] < |tasks|
    ensures Chained(Unlinked(tasks, Before(queues[cpu], k), queues[cpu][k]), rqs[c], queues[c], c)
  {
    var q := queues[cpu];
    var tasks' := Unlinked(tasks, Before(q, k), q[k]);
    assert Chained(tasks, rqs[c], queues[c], c);
    forall u | 0 <= u < |tasks| && u in queues[c] ensures SameLinks(tasks[u], tasks'[u]) {
      Queued(tasks, rqs, queues, u, c);
      if u == q[k] || u == Before(q, k) {
        assert u in q;
        Queued(tasks, rqs, queues, u, cpu);
      }
    }
    ChainFrame(tasks, tasks', rqs[c], queues[c], c);
  }

  lemma InChain(tasks: seq<Task>, rqs: seq<Queue>, queues: seq<seq<nat>>, cpu: nat, k: nat)
    requires Linked(tasks, rqs, queues) && cpu < CPUS && k < |queues[cpu]|
    ensures CPUS <= queues[cpu][k] < MAX_TASKS && Chained(tasks, rqs[cpu], queues[cpu], cpu)
    ensures LinkOk(tasks, queues[cpu], k, cpu)
  {
    assert Chained(tasks, rqs[cpu], queues[cpu], cpu);
    assert LinkOk(tasks, queues[cpu], k, cpu);
  }

  lemma UnlinkLinked(tasks: seq<Task>, rqs: seq<Queue>, queues: seq<seq<nat>>, cpu: nat, k: nat)
    requires Linked(tasks, rqs, queues) && cpu < CPUS && k < |queues[cpu]|
    ensures CPUS <= queues[cpu][k] < MAX_TASKS
    ensures var q := queues[cpu];
      var t, prev := q[k], Before(q, k);
      Linked(Unlinked(tasks, prev, t), rqs[cpu := CutRecord(rqs[cpu], prev, t, tasks[t].rqNext)], queues[cpu := Cut(q, k)])
  {
    InChain(tasks, rqs, queues, cpu, k);
    var q := queues[cpu];
    var t, prev := q[k], Before(q, k);
    UnlinkChain(tasks, rqs[cpu], q, k, cpu);
    var tasks', queues' := Unlinked(tasks, prev, t), queues[cpu := Cut(q, k)];
    forall c | 0 <= c < CPUS && c != cpu ensures Chained(tasks', rqs[c], queues[c], c) {
      UnlinkOther(tasks, rqs, queues, cpu, k, c);
    }
    forall u | 0 <= u < MAX_TASKS ensures Placed(tasks', queues', u) {
      assert Placed(tasks, queues, u);
      if u != t && u in q {
        StillIn(q, k, u);
      }
    }
  }

  lemma StillIn(q: seq<nat>, k: nat, u: nat)
    requires k < |q| && u in q && u != q[k]
    ensures u in Cut(q, k)
  {
    var j :| 0 <= j < |q| && q[j] == u;
    assert Cut(q, k)[if j < k then j else j - 1] == u;
  }
}
