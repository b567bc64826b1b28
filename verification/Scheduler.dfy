/**
 The scheduler (`sched.c`).  A method is one region under `sched_lock`, run by any processor
 at any time; between regions anything may happen, including the wake-up of a task that has
 announced it will sleep but still runs.  `current` is what each processor executes.
 */
module Scheduler {
  import opened RunQueue
  import opened Picking
  import opened Wrappers

  /** A task without its link: what a neighbour's enqueue may not touch. */
  function Marks(t: Task): Task { t.(rqNext := NONE) }

  /** No slot but `t` changed, links aside. */
  ghost predicate OnlyTask(tasks: seq<Task>, tasks': seq<Task>, t: int) {
    |tasks'| == |tasks| && forall u :: 0 <= u < |tasks| && u != t ==> Marks(tasks'[u]) == Marks(tasks[u])
  }

  predicate Gone(s: TaskState) { s.Dead? || s.Zombie? || s.Reaping? }

  /**
   What holds of a task slot at the end of every region: a ready task is queued, a running
   one is not, a pending kill is for a task on a processor, and a task being reaped is
   queued nowhere, runs nowhere and is on the reaper's list.
   */
  ghost predicate Healthy(task: Task, t: nat, reaped: set<nat>, nextId: nat) {
    && (!task.used ==> !task.kill && !task.onRq)
    && (t >= CPUS && task.used ==>
        && (task.state.Ready? ==> task.onRq) && (task.state.Running? ==> !task.onRq)
        && (task.kill ==> task.cpu != NONE)
        && (task.state.Reaping? <==> task.id in reaped)
        && (task.state.Reaping? ==> !task.onRq && task.cpu == NONE)
        && task.id < nextId)
  }

  ghost predicate AllHealthy(tasks: seq<Task>, reaped: set<nat>, nextId: nat) {
    forall t :: 0 <= t < |tasks| ==> Healthy(tasks[t], t, reaped, nextId)
  }

  /** All slots but `t`. */
  ghost predicate RestHealthy(tasks: seq<Task>, reaped: set<nat>, nextId: nat, t: int) {
    forall u :: 0 <= u < |tasks| && u != t ==> Healthy(tasks[u], u, reaped, nextId)
  }

  ghost predicate Distinct(tasks: seq<Task>) {
    forall t, u :: 0 <= t < u < |tasks| && tasks[t].used && tasks[u].used ==> tasks[t].id != tasks[u].id
  }

  ghost predicate SchedInv(tasks: seq<Task>, rqs: seq<Queue>, queues: seq<seq<nat>>, reaped: set<nat>, nextId: nat) {
    && Linked(tasks, rqs, queues) && AllHealthy(tasks, reaped, nextId) && Distinct(tasks)
    && CPUS <= nextId && forall i :: i in reaped ==> CPUS <= i < nextId
  }

  /** Same task; if it was dead, a zombie or being reaped it still is, and a kill that is pending is pending until then. */
  predicate StaysGone(a: Task, b: Task, t: nat) {
    b.used == a.used && b.id == a.id && (t >= CPUS && a.used ==> (Gone(a.state) ==> Gone(b.state)) && (a.kill ==> b.kill || Gone(b.state)))
  }

  ghost predicate GoneStays(tasks: seq<Task>, tasks': seq<Task>) {
    |tasks'| == |tasks| && forall t :: 0 <= t < |tasks| ==> StaysGone(tasks[t], tasks'[t], t)
  }

  /** One slot changed, and is healthy again. */
  lemma OneHealthy(tasks: seq<Task>, tasks': seq<Task>, t: nat, reaped: set<nat>, nextId: nat)
    requires OnlyTask(tasks, tasks', t) && t < |tasks| && RestHealthy(tasks, reaped, nextId, t)
    requires Healthy(tasks'[t], t, reaped, nextId)
    requires Distinct(tasks) && tasks'[t].used == tasks[t].used && tasks'[t].id == tasks[t].id
    ensures AllHealthy(tasks', reaped, nextId) && Distinct(tasks')
  {
    forall u | 0 <= u < |tasks'| ensures Healthy(tasks'[u], u, reaped, nextId) {
      if u != t {
        assert Healthy(tasks[u], u, reaped, nextId);
        assert Marks(tasks'[u]) == Marks(tasks[u]);
      }
    }
    forall x, y | 0 <= x < y < |tasks'| && tasks'[x].used && tasks'[y].used ensures tasks'[x].id != tasks'[y].id {
      assert x != t ==> Marks(tasks'[x]) == Marks(tasks[x]);
      assert y != t ==> Marks(tasks'[y]) == Marks(tasks[y]);
    }
  }

  /** Changing anything but the list fields of one task leaves the lists as they are. */
  lemma FieldLinked(tasks: seq<Task>, rqs: seq<Queue>, queues: seq<seq<nat>>, t: nat, task: Task)
    requires Linked(tasks, rqs, queues) && t < MAX_TASKS
    requires SameLinks(task, tasks[t]) && task.used == tasks[t].used && task.id == tasks[t].id
    ensures Linked(tasks[t := task], rqs, queues)
  {
    var tasks' := tasks[t := task];
    forall c | 0 <= c < CPUS ensures Chained(tasks', rqs[c], queues[c], c) {
      assert Chained(tasks, rqs[c], queues[c], c);
      ChainFrame(tasks, tasks', rqs[c], queues[c], c);
    }
    forall u | 0 <= u < MAX_TASKS ensures Placed(tasks', queues, u) {
      assert Placed(tasks, queues, u);
    }
  }

  function Rotated(start: nat, k: nat): (c: nat)
    ensures c < CPUS
  {
    (start + k) % CPUS
  }

  /** How many processors before `c` the scan from `start` visits. */
  function Turn(start: nat, c: nat): nat
    requires start < CPUS && c < CPUS
  {
    if c >= start then c - start else c + CPUS - start
  }

  /** The shortest queue the scan from `start` meets first. */
  ghost predicate Lightest(queues: seq<seq<nat>>, start: nat, b: nat)
    requires |queues| == CPUS && start < CPUS
  {
    b < CPUS && forall c :: 0 <= c < CPUS ==> |queues[b]| <= |queues[c]| && (Turn(start, c) < Turn(start, b) ==> |queues[b]| < |queues[c]|)
  }

  /** `t` joined the lightest queue, unless it was in one, and the next scan starts after that. */
  ghost predicate Spread(queues: seq<seq<nat>>, start: nat, t: nat, onRq: bool, queues': seq<seq<nat>>, start': nat)
    requires |queues| == CPUS && start < CPUS
  {
    exists b: nat :: Lightest(queues, start, b) && start' == (b + 1) % CPUS && queues' == if onRq then queues else queues[b := queues[b] + [t]]
  }

  lemma SpreadGrows(queues: seq<seq<nat>>, start: nat, t: nat, onRq: bool, queues': seq<seq<nat>>, start': nat)
    requires |queues| == CPUS && start < CPUS && Spread(queues, start, t, onRq, queues', start')
    ensures |queues'| == CPUS && forall c :: 0 <= c < CPUS ==> queues[c] <= queues'[c]
  {
  }

  /** A task made ready: queued on `cpu` unless it already was somewhere. */
  function Readied(t: Task, cpu: int): Task {
    if t.onRq then t.(state := Ready) else t.(state := Ready, rqCpu := cpu, onRq := true)
  }

  /** The tasks in `gone` left their queue; nothing else changed, links aside. */
  ghost predicate Drained(tasks: seq<Task>, tasks': seq<Task>, gone: seq<nat>) {
    |tasks'| == |tasks|
    && forall u :: 0 <= u < |tasks| ==> Marks(tasks'[u]) == Marks(if u in gone then Leaving(tasks[u]) else tasks[u])
  }

  lemma DrainedMore(tasks: seq<Task>, mid: seq<Task>, tasks': seq<Task>, gone: seq<nat>, t: nat)
    requires Drained(tasks, mid, gone) && OnlyTask(mid, tasks', t) && t < |tasks| && tasks'[t] == Leaving(mid[t])
    ensures Drained(tasks, tasks', gone + [t])
  {
    forall u | 0 <= u < |tasks| ensures Marks(tasks'[u]) == Marks(if u in gone + [t] then Leaving(tasks[u]) else tasks[u]) {
      if u != t {
        assert Marks(tasks'[u]) == Marks(mid[u]);
      }
    }
  }

  lemma DrainedHealthy(tasks: seq<Task>, tasks': seq<Task>, gone: seq<nat>, t: int, reaped: set<nat>, nextId: nat)
    requires RestHealthy(tasks, reaped, nextId, t) && Distinct(tasks) && Drained(tasks, tasks', gone)
    requires forall u :: 0 <= u < |tasks| && u in gone && u != t ==> !tasks[u].state.Ready?
    ensures RestHealthy(tasks', reaped, nextId, t) && Distinct(tasks')
  {
    forall u | 0 <= u < |tasks'| && u != t ensures Healthy(tasks'[u], u, reaped, nextId) {
      assert Healthy(tasks[u], u, reaped, nextId);
    }
  }

  lemma TakenStale(tasks: seq<Task>, q: seq<nat>, u: nat)
    requires u < |tasks| && u in Taken(tasks, q) && tasks[u].state.Ready?
    ensures FirstReady(tasks, q) < |q| && u == q[FirstReady(tasks, q)]
  {
    var k := FirstReady(tasks, q);
    var j :| 0 <= j < |Taken(tasks, q)| && Taken(tasks, q)[j] == u;
    assert q[j] == u;
  }

  class Scheduler {
    var tasks: seq<Task>
    var rqs: seq<Queue>
    var current: seq<nat>
    var nextId: nat
    var nextEnqueue: nat
    var initId: int
    ghost var queues: seq<seq<nat>>
    ghost var reaped: set<nat>           // ids whose task was detached for reaping

    ghost predicate Valid()
      reads this
    {
      && SchedInv(tasks, rqs, queues, reaped, nextId)
      && |current| == CPUS && (forall c :: 0 <= c < CPUS ==> current[c] < MAX_TASKS) && nextEnqueue < CPUS
    }

    // ------------------------------------------------------------ the lists

    /** `sched_rq_enqueue_locked`. */
    method Enqueue(t: nat, cpu: nat)
      requires Linked(tasks, rqs, queues) && t < MAX_TASKS && cpu < CPUS
      modifies this`tasks, this`rqs, this`queues
      ensures Linked(tasks, rqs, queues) && OnlyTask(old(tasks), tasks, t)
      ensures old(tasks)[t].id < CPUS || old(tasks)[t].onRq ==> tasks == old(tasks) && queues == old(queues)
      ensures !(old(tasks)[t].id < CPUS || old(tasks)[t].onRq) ==>
        tasks[t] == Joining(old(tasks)[t], cpu) && queues == old(queues)[cpu := old(queues)[cpu] + [t]]
    {
      if tasks[t].id < CPUS || tasks[t].onRq {
        return;
      }
      assert Placed(tasks, queues, t) && Chained(tasks, rqs[cpu], queues[cpu], cpu);
      Queued(tasks, rqs, queues, t, cpu);
      AppendLinked(tasks, rqs, queues, t, cpu);
      var rq := rqs[cpu];
      if rq.tail != NONE {
        InChain(tasks, rqs, queues, cpu, |queues[cpu]| - 1);
      }
      tasks := tasks[t := tasks[t].(rqCpu := cpu, rqNext := NONE, onRq := true)];
      if rq.tail == NONE {
        rq := rq.(head := t, tail := t);
      } else {
        tasks := tasks[rq.tail := tasks[rq.tail].(rqNext := t)];
        rq := rq.(tail := t);
      }
      rqs := rqs[cpu := rq.(nr := rq.nr + 1)];
      queues := queues[cpu := queues[cpu] + [t]];
    }

    /** `sched_rq_dequeue_locked`. */
    method Dequeue(cpu: nat) returns (t: int)
      requires Linked(tasks, rqs, queues) && cpu < CPUS
      modifies this`tasks, this`rqs, this`queues
      ensures Linked(tasks, rqs, queues) && OnlyTask(old(tasks), tasks, t)
      ensures t == FirstOf(old(queues)[cpu])
      ensures t == NONE ==> tasks == old(tasks) && queues == old(queues)
      ensures t != NONE ==> CPUS <= t < MAX_TASKS && tasks[t] == Leaving(old(tasks)[t])
      ensures t != NONE ==> queues == old(queues)[cpu := old(queues)[cpu][1..]]
    {
      assert Chained(tasks, rqs[cpu], queues[cpu], cpu);
      var rq := rqs[cpu];
      t := rq.head;
      if t == NONE {
        return;
      }
      UnlinkLinked(tasks, rqs, queues, cpu, 0);
      assert queues[cpu][1..] == Cut(queues[cpu], 0);
      InChain(tasks, rqs, queues, cpu, 0);
      rq := rq.(head := tasks[t].rqNext);
      if rq.head == NONE {
        rq := rq.(tail := NONE);
      }
      HeadTail(tasks, rqs[cpu], queues[cpu], cpu);
      tasks := tasks[t := tasks[t].(rqNext := NONE, onRq := false)];
      if rq.nr > 0 {
        rq := rq.(nr := rq.nr - 1);
      }
      rqs := rqs[cpu := rq];
      queues := queues[cpu := queues[cpu][1..]];
    }

    /** Take `t`, at place `k` after `prev`, out of its queue. */
    method Unlink(t: nat, prev: int, cpu: nat, ghost k: nat)
      requires Linked(tasks, rqs, queues) && cpu < CPUS && k < |queues[cpu]| && t == queues[cpu][k] && prev == Before(queues[cpu], k)
      modifies this`tasks, this`rqs, this`queues
      ensures Linked(tasks, rqs, queues) && t < MAX_TASKS && OnlyTask(old(tasks), tasks, t) && tasks[t] == Leaving(old(tasks)[t])
      ensures queues == old(queues)[cpu := Cut(old(queues)[cpu], k)]
    {
      UnlinkLinked(tasks, rqs, queues, cpu, k);
      if k > 0 {
        InChain(tasks, rqs, queues, cpu, k - 1);
        assert NoDup(queues[cpu]) && prev != t;
      }
      var rq, next := rqs[cpu], tasks[t].rqNext;
      if prev == NONE {
        rq := rq.(head := next);
      } else {
        tasks := tasks[prev := tasks[prev].(rqNext := next)];
      }
      if rq.tail == t {
        rq := rq.(tail := prev);
      }
      tasks := tasks[t := tasks[t].(rqNext := NONE, onRq := false)];
      if rq.nr > 0 {
        rq := rq.(nr := rq.nr - 1);
      }
      rqs := rqs[cpu := rq];
      queues := queues[cpu := Cut(queues[cpu], k)];
    }

    /** `sched_rq_remove_locked`: the walk from the head always finds a queued task. */
    method Remove(t: nat) returns (found: bool)
      requires Linked(tasks, rqs, queues) && t < MAX_TASKS
      modifies this`tasks, this`rqs, this`queues
      ensures Linked(tasks, rqs, queues) && OnlyTask(old(tasks), tasks, t)
      ensures found <==> old(tasks)[t].onRq
      ensures tasks[t] == if found then Leaving(old(tasks)[t]) else old(tasks)[t]
      ensures !found ==> tasks == old(tasks) && queues == old(queues)
      ensures found ==> TakenFrom(old(queues), queues, t)
    {
      if !tasks[t].onRq {
        return false;
      }
      assert Placed(tasks, queues, t);
      var cpu := tasks[t].rqCpu;
      ghost var q := queues[cpu];
      assert Chained(tasks, rqs[cpu], q, cpu);
      var prev, cur := NONE, rqs[cpu].head;
      ghost var k := 0;
      while cur != NONE
        invariant tasks == old(tasks) && rqs == old(rqs) && queues == old(queues)
        invariant 0 <= k <= |q| && cur == FirstOf(q[k..]) && prev == (if k == 0 then NONE else q[k - 1])
        invariant forall j :: 0 <= j < k ==> q[j] != t
        decreases |q| - k
      {
        InChain(tasks, rqs, queues, cpu, k);
        if cur == t {
          Unlink(t, prev, cpu, k);
          assert old(queues)[cpu][k] == t;
          return true;
        }
        prev := cur;
        cur := tasks[cur].rqNext;
        k := k + 1;
      }
      assert false;                      // a marked task is in the queue it names
    }

    // ------------------------------------------------------------ choosing

    /** `sched_least_loaded_cpu_locked`: a shortest queue, ties broken from the rotating start. */
    method LeastLoaded() returns (best: nat)
      requires |rqs| == CPUS && nextEnqueue < CPUS
      modifies this`nextEnqueue
      ensures best < CPUS && nextEnqueue == (best + 1) % CPUS
      ensures forall c :: 0 <= c < CPUS ==> rqs[best].nr <= rqs[c].nr && (Turn(old(nextEnqueue), c) < Turn(old(nextEnqueue), best) ==> rqs[best].nr < rqs[c].nr)
    {
      best := nextEnqueue;
      var load := rqs[best].nr;
      var offset := 1;
      while offset < CPUS
        invariant 1 <= offset <= CPUS && best < CPUS && load == rqs[best].nr
        invariant Turn(nextEnqueue, best) < offset
        invariant forall k :: 0 <= k < offset ==> load <= rqs[Rotated(nextEnqueue, k)].nr && (k < Turn(nextEnqueue, best) ==> load < rqs[Rotated(nextEnqueue, k)].nr)
      {
        var cpu := Rotated(nextEnqueue, offset);
        if rqs[cpu].nr < load {
          best, load := cpu, rqs[cpu].nr;
        }
        offset := offset + 1;
      }
      forall c | 0 <= c < CPUS ensures load <= rqs[c].nr && (Turn(nextEnqueue, c) < Turn(nextEnqueue, best) ==> load < rqs[c].nr) {
        assert Rotated(nextEnqueue, Turn(nextEnqueue, c)) == c;
      }
      nextEnqueue := (best + 1) % CPUS;
    }

    /** `sched_make_ready_locked`; idle tasks are left alone. */
    method MakeReady(t: nat)
      requires Linked(tasks, rqs, queues) && t < MAX_TASKS && nextEnqueue < CPUS && |current| == CPUS
      modifies this`tasks, this`rqs, this`queues, this`nextEnqueue
      ensures Linked(tasks, rqs, queues) && OnlyTask(old(tasks), tasks, t) && nextEnqueue < CPUS
      ensures old(tasks)[t].id < CPUS ==> tasks == old(tasks)
      ensures old(tasks)[t].id < CPUS ==> queues == old(queues) && nextEnqueue == old(nextEnqueue)
      ensures old(tasks)[t].id >= CPUS ==> tasks[t].onRq && Marks(tasks[t]) == Marks(Readied(old(tasks)[t], tasks[t].rqCpu))
      ensures old(tasks)[t].id >= CPUS ==> Spread(old(queues), old(nextEnqueue), t, old(tasks)[t].onRq, queues, nextEnqueue)
    {
      if tasks[t].id < CPUS {
        return;
      }
      FieldLinked(tasks, rqs, queues, t, tasks[t].(state := Ready));
      tasks := tasks[t := tasks[t].(state := Ready)];
      var cpu := LeastLoaded();
      Lengths(tasks, rqs, queues);
      assert Lightest(queues, old(nextEnqueue), cpu);
      assert Placed(tasks, queues, t);
      Enqueue(t, cpu);
    }

    /** Dequeue until a ready task comes up: stale entries are dropped on the way. */
    method TakeReady(cpu: nat) returns (t: int)
      requires Linked(tasks, rqs, queues) && cpu < CPUS
      modifies this`tasks, this`rqs, this`queues
      ensures Linked(tasks, rqs, queues)
      ensures queues == old(queues)[cpu := Left(old(tasks), old(queues)[cpu])]
      ensures Drained(old(tasks), tasks, Taken(old(tasks), old(queues)[cpu]))
      ensures t == ReadyOf(old(tasks), old(queues)[cpu])
      ensures t != NONE ==> CPUS <= t < MAX_TASKS
    {
      ghost var q, k := queues[cpu], 0;
      ghost var first := FirstReady(tasks, q);
      while true
        invariant Linked(tasks, rqs, queues) && 0 <= k <= first && queues == old(queues)[cpu := q[k..]]
        invariant Drained(old(tasks), tasks, q[..k])
        decreases |q| - k
      {
        ghost var mid := tasks;
        Pieces(q, k);
        t := Dequeue(cpu);
        if t == NONE {
          return;
        }
        DrainedMore(old(tasks), mid, tasks, q[..k], t);
        assert Marks(tasks[t]) == Marks(Leaving(old(tasks)[t]));
        if tasks[t].state.Ready? {
          return;
        }
        k := k + 1;
      }
    }

    /** The queue a processor with an empty one steals from. */
    method Busiest(cpu: nat) returns (b: nat)
      requires Linked(tasks, rqs, queues) && cpu < CPUS && queues[cpu] == []
      ensures IsVictim(queues, cpu, b) && (b == cpu || rqs[b].nr != 0)
    {
      Lengths(tasks, rqs, queues);
      b := cpu;
      for other := 0 to CPUS
        invariant b < CPUS && (b == cpu || (b < other && rqs[b].nr > 0))
        invariant forall c :: 0 <= c < other ==> rqs[c].nr <= rqs[b].nr && (c < b && b != cpu ==> rqs[c].nr < rqs[b].nr)
      {
        if rqs[other].nr > rqs[b].nr {
          b := other;
        }
      }
    }

    /** The first ready task of the victim's queue, if it holds any. */
    method Steal(cpu: nat) returns (t: int)
      requires SchedInv(tasks, rqs, queues, reaped, nextId) && cpu < CPUS && queues[cpu] == []
      modifies this`tasks, this`rqs, this`queues
      ensures Linked(tasks, rqs, queues) && RestHealthy(tasks, reaped, nextId, t) && Distinct(tasks)
      ensures t == Choice(old(tasks), old(queues), cpu) && queues == AfterPick(old(tasks), old(queues), cpu)
      ensures t != NONE ==> CPUS <= t < MAX_TASKS && old(tasks)[t].used && old(tasks)[t].state.Ready? && Picked(old(tasks)[t], tasks[t])
      ensures SameStates(old(tasks), tasks)
    {
      var b := Busiest(cpu);
      OneVictim(queues, cpu, b, Victim(queues, cpu));
      assert queues[cpu := []] == queues;
      if b == cpu || rqs[b].nr == 0 {
        return NONE;
      }
      t := TakeReady(b);
      TakenHealthy(old(tasks), tasks, old(rqs), old(queues), b, t, reaped, nextId);
      if t != NONE {
        StealLinked(tasks, rqs, queues, t, cpu);
        tasks := tasks[t := tasks[t].(rqCpu := cpu)];
      }
    }

    /**
     `sched_pick_next_locked`: exactly the task `Choice` names, off every queue, and the stale
     entries before it gone.
     */
    method Pick(cpu: nat) returns (t: int)
      requires SchedInv(tasks, rqs, queues, reaped, nextId) && cpu < CPUS
      modifies this`tasks, this`rqs, this`queues
      ensures Linked(tasks, rqs, queues) && RestHealthy(tasks, reaped, nextId, t) && Distinct(tasks)
      ensures t == Choice(old(tasks), old(queues), cpu) && queues == AfterPick(old(tasks), old(queues), cpu)
      ensures t == NONE <==>
        (AllStale(old(tasks), old(queues)[cpu]) && (Victim(old(queues), cpu) == cpu || AllStale(old(tasks), old(queues)[Victim(old(queues), cpu)])))
      ensures t != NONE ==> CPUS <= t < MAX_TASKS && old(tasks)[t].used && old(tasks)[t].state.Ready? && Picked(old(tasks)[t], tasks[t])
      ensures SameStates(old(tasks), tasks)
    {
      PicksNothing(tasks, queues, cpu);
      t := TakeReady(cpu);
      TakenHealthy(old(tasks), tasks, old(rqs), old(queues), cpu, t, reaped, nextId);
      if t != NONE {
        return;
      }
      StaleMeans(old(tasks), old(queues)[cpu]);
      EmptiedChoice(old(tasks), tasks, old(queues), cpu);
      t := Steal(cpu);
    }

    // ------------------------------------------------------------ sleeping and waking

    /** Make a blocked task ready. */
    method Rouse(t: nat)
      requires Valid() && t < MAX_TASKS && tasks[t].state.Blocked?
      modifies this`tasks, this`rqs, this`queues, this`nextEnqueue
      ensures Valid() && GoneStays(old(tasks), tasks) && OnlyTask(old(tasks), tasks, t)
      ensures old(tasks)[t].id >= CPUS ==> tasks[t].state.Ready? && tasks[t].onRq
      ensures old(tasks)[t].id < CPUS ==> tasks == old(tasks) && queues == old(queues)
      ensures old(tasks)[t].id >= CPUS ==> Core(tasks[t]) == Core(old(tasks)[t]).(state := Ready)
      ensures old(tasks)[t].id >= CPUS ==> Spread(old(queues), old(nextEnqueue), t, old(tasks)[t].onRq, queues, nextEnqueue)
    {
      MakeReady(t);
      ReadiedInv(old(tasks), tasks, old(rqs), old(queues), rqs, queues, reaped, nextId, t);
      OnlyGoneStays(old(tasks), tasks, t);
    }

    /** Store new values in the fields outside the lists. */
    method Put(t: nat, task: Task)
      requires Valid() && t < MAX_TASKS && SameLinks(task, tasks[t])
      requires task.used == tasks[t].used && task.id == tasks[t].id && Healthy(task, t, reaped, nextId)
      modifies this`tasks
      ensures Valid() && tasks == old(tasks)[t := task]
    {
      FieldInv(tasks, rqs, queues, reaped, nextId, t, task);
      tasks := tasks[t := task];
    }

    /** `sched_wake_task`. */
    method Wake(t: nat)
      requires Valid() && t < MAX_TASKS
      modifies this`tasks, this`rqs, this`queues, this`nextEnqueue
      ensures Valid() && GoneStays(old(tasks), tasks)
      ensures var was := old(tasks)[t];
        if was.state.Blocked? && !was.kill && was.id >= CPUS then
          && OnlyTask(old(tasks), tasks, t) && Core(tasks[t]) == Core(was).(state := Ready) && tasks[t].onRq
          && Spread(old(queues), old(nextEnqueue), t, was.onRq, queues, nextEnqueue)
        else tasks == old(tasks) && queues == old(queues)
    {
      if tasks[t].state.Blocked? && !tasks[t].kill {
        Rouse(t);
      }
    }

    /** `sched_park_task`: a pending token is consumed instead of blocking. */
    method Park(t: nat) returns (blocked: bool)
      requires Valid() && t < MAX_TASKS
      modifies this`tasks
      ensures Valid() && GoneStays(old(tasks), tasks)
      ensures blocked <==> CanPark(old(tasks)[t]) && !old(tasks)[t].wake
      ensures tasks == if CanPark(old(tasks)[t]) then old(tasks)[t := Parked(old(tasks)[t])] else old(tasks)
    {
      blocked := false;
      assert Healthy(tasks[t], t, reaped, nextId);
      if tasks[t].id < CPUS {
        return;
      }
      if !Gone(tasks[t].state) && !tasks[t].kill {
        if tasks[t].wake {
          Put(t, tasks[t].(wake := false));
        } else {
          Put(t, tasks[t].(state := Blocked));
          blocked := true;
        }
        OnlyGoneStays(old(tasks), tasks, t);
      }
    }

    /** `sched_unpark_task`: wake, or leave a token for a task that has not yet parked. */
    method Unpark(t: nat)
      requires Valid() && t < MAX_TASKS
      modifies this`tasks, this`rqs, this`queues, this`nextEnqueue
      ensures Valid() && GoneStays(old(tasks), tasks) && OnlyTask(old(tasks), tasks, t)
      ensures old(tasks)[t].state.Blocked? && !old(tasks)[t].kill && old(tasks)[t].id >= CPUS ==>
        && Core(tasks[t]) == Core(old(tasks)[t]).(state := Ready)
        && Spread(old(queues), old(nextEnqueue), t, old(tasks)[t].onRq, queues, nextEnqueue)
      ensures !old(tasks)[t].state.Blocked? && !Gone(old(tasks)[t].state) && !old(tasks)[t].kill ==>
        tasks == old(tasks)[t := old(tasks)[t].(wake := true)] && queues == old(queues)
      ensures Gone(old(tasks)[t].state) || old(tasks)[t].kill ==> tasks == old(tasks)
    {
      assert Healthy(tasks[t], t, reaped, nextId);
      if tasks[t].state.Blocked? && !tasks[t].kill {
        Rouse(t);
      } else if !Gone(tasks[t].state) && !tasks[t].kill {
        Put(t, tasks[t].(wake := true));
        OnlyGoneStays(old(tasks), tasks, t);
      }
    }

    /** `sched_block_task`. */
    method Block(t: nat)
      requires Valid() && t < MAX_TASKS
      modifies this`tasks, this`rqs, this`queues
      ensures Valid() && GoneStays(old(tasks), tasks)
      ensures if CanPark(old(tasks)[t]) then Retired(old(tasks), old(queues), tasks, queues, t) else tasks == old(tasks) && queues == old(queues)
    {
      assert Healthy(tasks[t], t, reaped, nextId);
      if tasks[t].id >= CPUS && !Gone(tasks[t].state) && !tasks[t].kill {
        Retire(t);
      }
    }

    /** Off the queue and blocked. */
    method Retire(t: nat)
      requires Valid() && t < MAX_TASKS && !Gone(tasks[t].state)
      modifies this`tasks, this`rqs, this`queues
      ensures Valid() && GoneStays(old(tasks), tasks) && OnlyTask(old(tasks), tasks, t)
      ensures Retired(old(tasks), old(queues), tasks, queues, t)
    {
      var found := Remove(t);
      BlockedInv(old(tasks), tasks, rqs, queues, reaped, nextId, t);
      tasks := tasks[t := tasks[t].(state := Blocked)];
      OnlyGoneStays(old(tasks), tasks, t);
    }

    /** `sched_sleep_current`, by the task processor `cpu` runs. */
    method Sleep(cpu: nat, ticks: nat) returns (ok: bool)
      requires Valid() && cpu < CPUS
      modifies this`tasks, this`rqs, this`queues, this`nextEnqueue
      ensures Valid() && GoneStays(old(tasks), tasks)
      ensures ok <==> CanPark(old(tasks)[current[cpu]])
      ensures ok ==> OnlyTask(old(tasks), tasks, current[cpu])
      ensures ok ==> Core(tasks[current[cpu]]) == Core(old(tasks)[current[cpu]]).(sleep := ticks, state := if ticks == 0 then Ready else Blocked)
      ensures ok && ticks > 0 ==>
        if old(tasks)[current[cpu]].onRq then TakenFrom(old(queues), queues, current[cpu]) else queues == old(queues)
      ensures ok && ticks == 0 ==> Spread(old(queues), old(nextEnqueue), current[cpu], old(tasks)[current[cpu]].onRq, queues, nextEnqueue)
      ensures !ok ==> tasks == old(tasks) && queues == old(queues)
    {
      var t := current[cpu];
      assert Healthy(tasks[t], t, reaped, nextId);
      if tasks[t].id < CPUS {
        return false;
      }
      if Gone(tasks[t].state) || tasks[t].kill {
        return false;
      }
      Put(t, tasks[t].(sleep := ticks));
      OnlyGoneStays(old(tasks), tasks, t);
      ghost var mid := tasks;
      if ticks == 0 {
        MakeReady(t);
        ReadiedInv(mid, tasks, old(rqs), old(queues), rqs, queues, reaped, nextId, t);
        OnlyGoneStays(mid, tasks, t);
      } else {
        Retire(t);
      }
      GoneTwice(old(tasks), mid, tasks);
      ok := true;
    }

    // ------------------------------------------------------------ switching

    /** The outgoing task: a pending kill takes effect, a running task goes to the back of the queue. */
    method Outgoing(cpu: nat)
      requires Valid() && cpu < CPUS
      modifies this`tasks, this`rqs, this`queues
      ensures Valid() && GoneStays(old(tasks), tasks) && OnlyTask(old(tasks), tasks, current[cpu])
      ensures var p := old(tasks)[current[cpu]];
        && (p.id < CPUS ==> tasks == old(tasks) && queues == old(queues))
        && Core(tasks[current[cpu]]) == Core(OutTask(p))
        && queues == if Requeued(p) then old(queues)[cpu := old(queues)[cpu] + [current[cpu]]] else old(queues)
    {
      var p := current[cpu];
      assert Healthy(tasks[p], p, reaped, nextId) && Placed(tasks, queues, p);
      if tasks[p].id < CPUS {
        return;
      }
      var task := tasks[p];
      if task.kill {
        task := task.(kill := false, state := Dead);
      }
      if task.state.Running? {
        FieldLinked(tasks, rqs, queues, p, task.(state := Ready, cpu := NONE));
        tasks := tasks[p := task.(state := Ready, cpu := NONE)];
        Enqueue(p, cpu);
        OneHealthy(old(tasks), tasks, p, reaped, nextId);
      } else {
        Put(p, task.(cpu := NONE));
      }
      OnlyGoneStays(old(tasks), tasks, p);
    }

    /** `schedule`, from the outgoing task to the choice of the next. */
    method Schedule(cpu: nat)
      requires Valid() && cpu < CPUS
      modifies this`tasks, this`rqs, this`queues, this`current
      ensures Valid() && GoneStays(old(tasks), tasks)
      ensures current == old(current)[cpu := current[cpu]]
      ensures tasks[current[cpu]].state.Running? && tasks[current[cpu]].cpu == cpu
      ensures current[cpu] >= CPUS || current[cpu] == cpu
      ensures Switched(old(tasks), old(queues), old(current)[cpu], cpu, tasks, queues, current[cpu])
      ensures HandsOver(old(tasks), old(current)[cpu], cpu, tasks, current[cpu])
      ensures current[cpu] == cpu && HoldsReady(tasks, queues) <==>
        Overlooks(OutTasks(old(tasks), old(current)[cpu]), OutQueues(old(tasks), old(queues), old(current)[cpu], cpu), cpu)
      ensures current[cpu] == cpu && NoStale(old(tasks), old(queues)) && !old(tasks)[old(current)[cpu]].kill ==>
        && !Requeued(old(tasks)[old(current)[cpu]])
        && forall c :: 0 <= c < CPUS ==> old(queues)[c] == []
    {
      assert Placed(tasks, queues, cpu);
      ghost var ts, qs := OutTasks(tasks, current[cpu]), OutQueues(tasks, queues, current[cpu], cpu);
      SwitchOver(cpu);
      SwitchMeans(old(tasks), old(queues), old(current)[cpu], cpu, tasks, queues, current[cpu]);
      IdleExact(old(tasks), old(queues), old(current)[cpu], cpu, tasks, queues, current[cpu], rqs);
      if current[cpu] == cpu && NoStale(old(tasks), old(queues)) && !old(tasks)[old(current)[cpu]].kill {
        IdleMeansEmpty(old(tasks), old(queues), ts, qs, cpu, old(current)[cpu]);
      }
    }

    /** Its body. */
    method SwitchOver(cpu: nat)
      requires Valid() && cpu < CPUS
      modifies this`tasks, this`rqs, this`queues, this`current
      ensures Valid() && GoneStays(old(tasks), tasks)
      ensures current == old(current)[cpu := current[cpu]]
      ensures current[cpu] >= CPUS || current[cpu] == cpu
      ensures current[cpu] < CPUS ==> Choice(OutTasks(old(tasks), old(current)[cpu]), OutQueues(old(tasks), old(queues), old(current)[cpu], cpu), cpu) == NONE
      ensures Switched(old(tasks), old(queues), old(current)[cpu], cpu, tasks, queues, current[cpu])
    {
      Outgoing(cpu);
      ghost var mid := tasks;
      var next := Pick(cpu);
      if next == NONE {
        next := cpu;
      }
      ghost var picked := tasks;
      assert next >= CPUS ==> Healthy(mid[next], next, reaped, nextId);
      Dispatch(next, cpu);
      SwitchedGone(old(tasks), mid, picked, tasks, next);
      SwitchedExact(old(tasks), old(queues), old(current)[cpu], cpu, mid, picked, tasks, next);
    }

    /** The incoming task runs on `cpu`. */
    method Dispatch(next: nat, cpu: nat)
      requires Linked(tasks, rqs, queues) && Distinct(tasks) && RestHealthy(tasks, reaped, nextId, next)
      requires CPUS <= nextId && (forall i :: i in reaped ==> CPUS <= i < nextId)
      requires |current| == CPUS && (forall c :: 0 <= c < CPUS ==> current[c] < MAX_TASKS) && nextEnqueue < CPUS && cpu < CPUS
      requires next < MAX_TASKS && Fresh(tasks[next], next, reaped, nextId)
      modifies this`tasks, this`current
      ensures Valid() && current == old(current)[cpu := next]
      ensures tasks == old(tasks)[next := old(tasks)[next].(state := Running, cpu := cpu)]
    {
      ghost var task := tasks[next].(state := Running, cpu := cpu);
      assert Placed(tasks, queues, next);
      FieldLinked(tasks, rqs, queues, next, task);
      OneHealthy(tasks, tasks[next := task], next, reaped, nextId);
      tasks := tasks[next := tasks[next].(state := Running, cpu := cpu)];
      current := current[cpu := next];
    }

    // ------------------------------------------------------------ the clock, kill, wait, exit

    /** `sched_tick`: processor 0 counts every sleeper down and wakes those that reach zero. */
    method Tick(cpu: nat)
      requires Valid() && cpu < CPUS
      modifies this`tasks, this`rqs, this`queues, this`nextEnqueue
      ensures Valid() && GoneStays(old(tasks), tasks)
      ensures cpu != 0 ==> tasks == old(tasks) && queues == old(queues)
      ensures forall c :: 0 <= c < CPUS ==> old(queues)[c] <= queues[c]
      ensures cpu == 0 ==> forall t :: 0 <= t < MAX_TASKS ==> Ticked(old(tasks)[t], tasks[t])
    {
      if cpu != 0 {
        return;
      }
      for t := 0 to MAX_TASKS
        invariant Valid() && GoneStays(old(tasks), tasks)
        invariant forall c :: 0 <= c < CPUS ==> old(queues)[c] <= queues[c]
        invariant forall u :: 0 <= u < t ==> Ticked(old(tasks)[u], tasks[u])
        invariant forall u :: t <= u < MAX_TASKS ==> Marks(tasks[u]) == Marks(old(tasks)[u])
      {
        ghost var before := tasks;
        if tasks[t].used && tasks[t].state.Blocked? && tasks[t].sleep > 0 {
          CountDown(t);
        }
        assert StaysGone(old(tasks)[t], before[t], t);
        TickOn(old(tasks), before, tasks, t);
      }
    }

    method CountDown(t: nat)
      requires Valid() && t < MAX_TASKS && tasks[t].used && tasks[t].state.Blocked? && tasks[t].sleep > 0
      modifies this`tasks, this`rqs, this`queues, this`nextEnqueue
      ensures Valid() && GoneStays(old(tasks), tasks) && OnlyTask(old(tasks), tasks, t)
      ensures Ticked(old(tasks)[t], tasks[t])
      ensures forall c :: 0 <= c < CPUS ==> old(queues)[c] <= queues[c]
    {
      assert Healthy(tasks[t], t, reaped, nextId);
      Put(t, tasks[t].(sleep := tasks[t].sleep - 1));
      OnlyGoneStays(old(tasks), tasks, t);
      if tasks[t].sleep == 0 && tasks[t].id >= CPUS {
        ghost var mid := tasks;
        Rouse(t);
        SpreadGrows(old(queues), old(nextEnqueue), t, mid[t].onRq, queues, nextEnqueue);
        OnlyTwice(old(tasks), mid, tasks, t);
        OnlyGoneStays(old(tasks), tasks, t);
      } else if tasks[t].sleep == 0 {
        MakeReady(t);
      }
    }

    /** The slot of the task with this id, or `NONE`. */
    method Find(id: int) returns (t: int)
      requires |tasks| == MAX_TASKS
      ensures t == NONE <==> forall u :: 0 <= u < MAX_TASKS ==> !(tasks[u].used && tasks[u].id == id)
      ensures t != NONE ==> 0 <= t < MAX_TASKS && tasks[t].used && tasks[t].id == id
    {
      for u := 0 to MAX_TASKS
        invariant forall v :: 0 <= v < u ==> !(tasks[v].used && tasks[v].id == id)
      {
        if tasks[u].used && tasks[u].id == id {
          return u;
        }
      }
      t := NONE;
    }

    /** `sched_kill_task` from processor `cpu`: at once, or at the next switch if the task runs. */
    method Kill(cpu: nat, id: nat) returns (killed: bool)
      requires Valid() && cpu < CPUS
      modifies this`tasks
      ensures Valid() && GoneStays(old(tasks), tasks)
      ensures killed ==> exists t :: CPUS <= t < MAX_TASKS && t != current[cpu] && KilledAt(old(tasks), tasks, t, id)
      ensures !killed ==> tasks == old(tasks)
      ensures !killed ==> forall t :: CPUS <= t < MAX_TASKS && tasks[t].used && tasks[t].id == id ==> t == current[cpu] || Gone(tasks[t].state)
    {
      var t := Find(id);
      forall u | CPUS <= u < MAX_TASKS && tasks[u].used && tasks[u].id == id ensures u == t && tasks[u].id >= CPUS {
        assert Placed(tasks, queues, u);
      }
      if t == NONE || t == current[cpu] || tasks[t].id < CPUS || Gone(tasks[t].state) {
        return false;
      }
      assert Healthy(tasks[t], t, reaped, nextId) && Placed(tasks, queues, t);
      var task := tasks[t];
      if task.state.Running? && task.cpu != NONE {
        Put(t, task.(kill := true));
      } else {
        Put(t, task.(state := Dead, sleep := 0, wake := false));
      }
      OnlyGoneStays(old(tasks), tasks, t);
      assert KilledAt(old(tasks), tasks, t, id);
      killed := true;
    }

    /** One round of `sched_wait4`: collect a zombie child, find none to wait for, or go to sleep. */
    method Wait(cpu: nat, pid: int) returns (r: Waited)
      requires Valid() && cpu < CPUS
      modifies this`tasks
      ensures GoneStays(old(tasks), tasks) <==> !(r.Sleeps? && Undead(old(tasks)[current[cpu]], current[cpu]))
      ensures Valid() <==> !(r.Sleeps? && Undead(old(tasks)[current[cpu]], current[cpu]) && old(tasks)[current[cpu]].state.Reaping?)
      ensures r.Collected? ==>
        exists t :: 0 <= t < MAX_TASKS && FirstZombie(old(tasks), old(tasks)[current[cpu]].id, pid, t) && CollectedAt(old(tasks), tasks, t, r.id)
      ensures r.Collected? ==> pid <= 0 || r.id == pid
      ensures r.NoChild? <==> forall t :: 0 <= t < MAX_TASKS ==>
        !(old(tasks)[t].used && old(tasks)[t].parent == old(tasks)[current[cpu]].id && (pid <= 0 || old(tasks)[t].id == pid))
      ensures r.NoChild? ==> tasks == old(tasks)
      ensures !r.Collected? ==> forall t :: 0 <= t < MAX_TASKS && ChildOf(old(tasks)[t], old(tasks)[current[cpu]].id, pid) ==> !old(tasks)[t].state.Zombie?
      ensures r.Sleeps? ==> tasks == old(tasks)[current[cpu] := old(tasks)[current[cpu]].(state := Blocked)]
    {
      var me := current[cpu];
      var found := false;
      for t := 0 to MAX_TASKS
        invariant tasks == old(tasks) && Valid()
        invariant found <==> exists u :: 0 <= u < t && ChildOf(tasks[u], tasks[me].id, pid)
        invariant forall u :: 0 <= u < t && ChildOf(tasks[u], tasks[me].id, pid) ==> !tasks[u].state.Zombie?
      {
        if ChildOf(tasks[t], tasks[me].id, pid) {
          found := true;
          if tasks[t].state.Zombie? {
            r := Collected(tasks[t].id);
            assert Healthy(tasks[t], t, reaped, nextId);
            Put(t, tasks[t].(state := Dead));
            OnlyGoneStays(old(tasks), tasks, t);
            assert FirstZombie(old(tasks), old(tasks)[me].id, pid, t) && CollectedAt(old(tasks), tasks, t, r.id);
            return;
          }
        }
      }
      if !found {
        return NoChild;
      }
      BlockingTheGone(tasks, rqs, queues, reaped, nextId, me);
      tasks := tasks[me := tasks[me].(state := Blocked)];
      r := Sleeps;
    }

    /** Children of `id`, other than slot `me`, pass to the first user task. */
    method Reparent(me: nat, id: nat)
      requires Valid() && me < MAX_TASKS
      modifies this`tasks
      ensures Valid() && GoneStays(old(tasks), tasks)
      ensures forall t :: 0 <= t < MAX_TASKS ==> tasks[t] == Orphaned(old(tasks)[t], t == me, id, initId)
    {
      for t := 0 to MAX_TASKS
        invariant Valid() && GoneStays(old(tasks), tasks)
        invariant forall u :: 0 <= u < t ==> tasks[u] == Orphaned(old(tasks)[u], u == me, id, initId)
        invariant forall u :: t <= u < MAX_TASKS ==> tasks[u] == old(tasks)[u]
      {
        ghost var before := tasks;
        if tasks[t].used && tasks[t].parent == id && t != me {
          assert Healthy(tasks[t], t, reaped, nextId);
          Put(t, tasks[t].(parent := initId));
          OnlyGoneStays(before, tasks, t);
        }
        GoneTwice(old(tasks), before, tasks);
      }
    }

    /**
     `task_exit` up to its call of `schedule`: dead at once if nobody can wait, else a zombie;
     its children pass on and a blocked parent wakes.
     */
    method Exit(cpu: nat)
      requires Valid() && cpu < CPUS
      modifies this`tasks, this`rqs, this`queues, this`nextEnqueue
      ensures GoneStays(old(tasks), tasks)
      ensures Valid() <==> !BeingReaped(old(tasks)[current[cpu]], current[cpu])
      ensures Core(tasks[current[cpu]]) == Core(old(tasks)[current[cpu]]).(state := LastState(old(tasks), current[cpu], initId))
      ensures forall t :: 0 <= t < MAX_TASKS && t != current[cpu] ==> Bereft(old(tasks), tasks, t, current[cpu], initId)
    {
      var me := current[cpu];
      Reparent(me, tasks[me].id);
      ghost var t1 := tasks;
      assert StaysGone(old(tasks)[me], t1[me], me);
      SameLast(old(tasks), t1, me, old(tasks)[me].id, initId);
      Finish(me);
      forall t | 0 <= t < MAX_TASKS && t != me ensures Bereft(old(tasks), tasks, t, me, initId) {
        assert Roused(t1, tasks, t, me) && t1[t] == Orphaned(old(tasks)[t], false, old(tasks)[me].id, initId);
      }
      GoneTwice(old(tasks), t1, tasks);
    }

    /** Publish the final state and wake a blocked parent, whatever it waits for. */
    method Finish(me: nat)
      requires Valid() && me < MAX_TASKS
      modifies this`tasks, this`rqs, this`queues, this`nextEnqueue
      ensures GoneStays(old(tasks), tasks)
      ensures Valid() <==> !BeingReaped(old(tasks)[me], me)
      ensures Core(tasks[me]) == Core(old(tasks)[me]).(state := LastState(old(tasks), me, initId))
      ensures forall t :: 0 <= t < MAX_TASKS && t != me ==> Roused(old(tasks), tasks, t, me)
    {
      var p := Find(tasks[me].parent);
      var last := if p == NONE || tasks[me].id == initId then Dead else Zombie;
      LastIs(tasks, me, p, initId);
      ExitingTwice(tasks, rqs, queues, reaped, nextId, me, last);
      tasks := tasks[me := tasks[me].(state := last)];
      OnlyGoneStays(old(tasks), tasks, me);
      ghost var mid := tasks;
      AwakeParent(me, p);
      GoneTwice(old(tasks), mid, tasks);
      AllRoused(old(tasks), mid, tasks, me, p);
    }

    method AwakeParent(me: nat, p: int)
      requires Linked(tasks, rqs, queues) && nextEnqueue < CPUS && |current| == CPUS && me < MAX_TASKS && -1 <= p < MAX_TASKS
      requires (Valid() || Unhealthy(tasks[me], me, reaped)) && (tasks[me].state.Dead? || tasks[me].state.Zombie?)
      modifies this`tasks, this`rqs, this`queues, this`nextEnqueue
      ensures Valid() <==> old(Valid())
      ensures (GoneStays(old(tasks), tasks) || tasks == old(tasks)) && tasks[me].state == old(tasks)[me].state
      ensures |tasks| == MAX_TASKS && forall t :: 0 <= t < MAX_TASKS ==>
        Core(tasks[t]) == if t == p && old(tasks)[t].state.Blocked? && old(tasks)[t].id >= CPUS then Core(old(tasks)[t]).(state := Ready) else Core(old(tasks)[t])
    {
      if p != NONE && tasks[p].state.Blocked? {
        MakeReady(p);
        assert Marks(tasks[me]) == Marks(old(tasks)[me]);
        forall t | 0 <= t < MAX_TASKS && t != p ensures Core(tasks[t]) == Core(old(tasks)[t]) {
          assert Marks(tasks[t]) == Marks(old(tasks)[t]);
        }
        if old(Valid()) {
          ReadiedInv(old(tasks), tasks, old(rqs), old(queues), rqs, queues, reaped, nextId, p);
        } else {
          assert !Healthy(tasks[me], me, reaped, nextId);
        }
        OnlyGoneStays(old(tasks), tasks, p);
      }
    }

    // ------------------------------------------------------------ birth and burial

    /** `sched_init`: the four idle tasks run, one per processor. */
    constructor ()
      ensures Valid() && reaped == {} && nextId == CPUS
      ensures forall t :: 0 <= t < MAX_TASKS ==> tasks[t] == if t < CPUS then Idle(t) else CLEARED
      ensures forall c :: 0 <= c < CPUS ==> queues[c] == [] && current[c] == c && tasks[c].used && tasks[c].id == c && tasks[c].state.Running? && tasks[c].cpu == c
      ensures nextEnqueue == 0 && initId == NONE
    {
      tasks := seq(MAX_TASKS, t requires 0 <= t < MAX_TASKS => if t < CPUS then Idle(t) else CLEARED);
      rqs := [Queue(NONE, NONE, 0), Queue(NONE, NONE, 0), Queue(NONE, NONE, 0), Queue(NONE, NONE, 0)];
      current, nextId, nextEnqueue, initId := [0, 1, 2, 3], CPUS, 0, NONE;
      queues, reaped := [[], [], [], []], {};
    }

    /** `sched_allocate_task_slot`. */
    method FreeSlot() returns (t: int)
      requires |tasks| == MAX_TASKS
      ensures t == NONE <==> forall u :: CPUS <= u < MAX_TASKS ==> tasks[u].used
      ensures t != NONE ==> CPUS <= t < MAX_TASKS && !tasks[t].used && forall u :: CPUS <= u < t ==> tasks[u].used
    {
      for u := CPUS to MAX_TASKS
        invariant forall v :: CPUS <= v < u ==> tasks[v].used
      {
        if !tasks[u].used {
          return u;
        }
      }
      t := NONE;
    }

    /** `task_create` (`user` false) and `task_create_user`; `stack` is whether a stack was found. */
    method Create(user: bool, stack: bool) returns (t: int)
      requires Valid()
      modifies this`tasks, this`rqs, this`queues, this`nextEnqueue, this`nextId
      ensures Valid() && Evolved(old(tasks), old(nextId), tasks, nextId)
      ensures t == NONE <==> !stack || forall u :: CPUS <= u < MAX_TASKS ==> old(tasks)[u].used
      ensures t == NONE ==> tasks == old(tasks) && nextId == old(nextId)
      ensures t != NONE ==> CPUS <= t < MAX_TASKS && !old(tasks)[t].used && tasks[t].used && tasks[t].id == old(nextId)
      ensures t != NONE ==> tasks[t].state == (if user then Blocked else Ready) && nextId == old(nextId) + 1
      ensures t != NONE ==> tasks[t].parent == NONE && tasks[t].cpu == NONE && !tasks[t].kill && tasks[t].sleep == old(tasks)[t].sleep && tasks[t].wake == old(tasks)[t].wake
      ensures t != NONE ==> OnlyTask(old(tasks), tasks, t) && Core(tasks[t]) == Core(Born(old(tasks)[t], old(nextId))).(state := tasks[t].state) && forall u :: CPUS <= u < t ==> old(tasks)[u].used
      ensures t == NONE || user ==> queues == old(queues) && nextEnqueue == old(nextEnqueue)
      ensures t != NONE && !user ==> Spread(old(queues), old(nextEnqueue), t, false, queues, nextEnqueue)
    {
      t := FreeSlot();
      if t == NONE {
        return;
      }
      if !stack {
        return NONE;
      }
      Bear(t);
      ghost var mid := tasks;
      if !user {
        MakeReady(t);
        ReadiedInv(mid, tasks, old(rqs), old(queues), rqs, queues, reaped, nextId, t);
      }
      BornEvolved(old(tasks), mid, tasks, t, old(nextId));
    }

    /** The fields of a new task; it starts out blocked. */
    method Bear(t: nat)
      requires Valid() && CPUS <= t < MAX_TASKS && !tasks[t].used
      modifies this`tasks, this`nextId
      ensures Valid() && nextId == old(nextId) + 1 && tasks == old(tasks)[t := Born(old(tasks)[t], old(nextId))]
    {
      BornInv(tasks, rqs, queues, reaped, nextId, t);
      tasks := tasks[t := Born(tasks[t], nextId)];
      nextId := nextId + 1;
    }

    /** The first region of the reaper: one dead task that no processor runs leaves every list. */
    method Detach(t: nat)
      requires Valid() && CPUS <= t < MAX_TASKS && tasks[t].used && tasks[t].state.Dead? && tasks[t].cpu == NONE
      modifies this`tasks, this`rqs, this`queues, this`reaped
      ensures Valid() && GoneStays(old(tasks), tasks)
      ensures tasks[t].id !in old(reaped) && reaped == old(reaped) + {tasks[t].id}
      ensures OnlyTask(old(tasks), tasks, t) && Core(tasks[t]) == Core(old(tasks)[t]).(state := Reaping)
      ensures forall c :: 0 <= c < CPUS ==> t !in queues[c]
      ensures if old(tasks)[t].onRq then TakenFrom(old(queues), queues, t) else queues == old(queues)
    {
      assert Healthy(tasks[t], t, reaped, nextId) && Placed(tasks, queues, t);
      var found := Remove(t);
      DetachInv(old(tasks), tasks, rqs, queues, reaped, nextId, t);
      tasks := tasks[t := tasks[t].(state := Reaping)];
      reaped := reaped + {tasks[t].id};
      forall c | 0 <= c < CPUS ensures t !in queues[c] {
        Queued(tasks, rqs, queues, t, c);
      }
      OnlyGoneStays(old(tasks), tasks, t);
    }

    /** The last region of the reaper: the slot is free again. */
    method Clear(t: nat)
      requires Valid() && CPUS <= t < MAX_TASKS && tasks[t].used && tasks[t].state.Reaping?
      modifies this`tasks
      ensures Valid() && Evolved(old(tasks), nextId, tasks, nextId) && tasks == old(tasks)[t := CLEARED]
    {
      ClearInv(tasks, rqs, queues, reaped, nextId, t);
      tasks := tasks[t := CLEARED];
    }

    /** `sched_adopt_task`, `sched_register_init_task` and fork give a task a parent. */
    method SetParent(t: nat, parent: int)
      requires Valid() && t < MAX_TASKS
      modifies this`tasks
      ensures Valid() && GoneStays(old(tasks), tasks) && tasks == old(tasks)[t := old(tasks)[t].(parent := parent)]
    {
      assert Healthy(tasks[t], t, reaped, nextId);
      Put(t, tasks[t].(parent := parent));
      OnlyGoneStays(old(tasks), tasks, t);
    }

    // ------------------------------------------------------------ whole runs

    /** The regions that name a task. */
    method TaskStep(ev: Event)
      requires Valid() && ev.OnTask? && ev.t < MAX_TASKS
      modifies this
      ensures Valid() && Evolved(old(tasks), old(nextId), tasks, nextId) && old(reaped) <= reaped
    {
      var t := ev.t;
      match ev.what {
        case Wake => Wake(t);
        case Park =>
          var blocked := Park(t);
        case Unpark => Unpark(t);
        case Block => Block(t);
        case Adopt(parent) => SetParent(t, parent);
        case Detach =>
          if t >= CPUS && tasks[t].used && tasks[t].state.Dead? && tasks[t].cpu == NONE {
            Detach(t);
          }
        case Clear =>
          if t >= CPUS && tasks[t].used && tasks[t].state.Reaping? {
            Clear(t);
            return;
          }
      }
      StayedEvolved(old(tasks), tasks, nextId);
    }

    /** The regions a processor runs for its current task. */
    method CpuStep(ev: Event)
      requires Valid() && ev.OnCpu? && ev.cpu < CPUS && Lawful(ev, tasks, current)
      modifies this
      ensures Valid() && Evolved(old(tasks), old(nextId), tasks, nextId) && old(reaped) <= reaped
    {
      var cpu := ev.cpu;
      match ev.how {
        case Schedule => Schedule(cpu);
        case Tick => Tick(cpu);
        case Exit => Exit(cpu);
        case Wait(pid) =>
          var r := Wait(cpu, pid);
        case Sleep(ticks) =>
          var ok := Sleep(cpu, ticks);
        case Kill(id) =>
          var killed := Kill(cpu, id);
      }
      StayedEvolved(old(tasks), tasks, nextId);
    }

    /**
     Any interleaving of regions.  The lists, marks and counts always agree, ready tasks are
     queued, what is gone stays gone, and nothing is reaped twice, up to the first `wait4` or
     exit by a task that is no longer alive (`done` events in).
     */
    method Run(evs: seq<Event>) returns (done: nat)
      requires Valid()
      modifies this
      ensures Valid() && Evolved(old(tasks), old(nextId), tasks, nextId) && old(reaped) <= reaped
      ensures done <= |evs| && (done < |evs| ==> !Lawful(evs[done], tasks, current))
    {
      done := 0;
      StayedEvolved(tasks, tasks, nextId);
      while done < |evs|
        invariant done <= |evs| && Valid()
        invariant Evolved(old(tasks), old(nextId), tasks, nextId) && old(reaped) <= reaped
      {
        var ev := evs[done];
        if !Lawful(ev, tasks, current) {
          return;
        }
        ghost var mid, midId, midReaped := tasks, nextId, reaped;
        if ev.Birth? {
          var t := Create(ev.user, ev.stack);
        } else if ev.OnTask? && ev.t < MAX_TASKS {
          TaskStep(ev);
        } else if ev.OnCpu? && ev.cpu < CPUS {
          CpuStep(ev);
        } else {
          StayedEvolved(tasks, tasks, nextId);
        }
        EvolvedTwice(old(tasks), old(nextId), mid, midId, tasks, nextId, old(reaped));
        done := done + 1;
      }
    }
  }

  /** Fields outside the lists may change as long as the slot stays healthy. */
  lemma FieldInv(tasks: seq<Task>, rqs: seq<Queue>, queues: seq<seq<nat>>, reaped: set<nat>, nextId: nat, t: nat, task: Task)
    requires SchedInv(tasks, rqs, queues, reaped, nextId) && t < MAX_TASKS
    requires SameLinks(task, tasks[t]) && task.used == tasks[t].used && task.id == tasks[t].id
    requires Healthy(task, t, reaped, nextId)
    ensures SchedInv(tasks[t := task], rqs, queues, reaped, nextId) && OnlyTask(tasks, tasks[t := task], t)
  {
    FieldLinked(tasks, rqs, queues, t, task);
    OneHealthy(tasks, tasks[t := task], t, reaped, nextId);
  }

  lemma OnlyGoneStays(tasks: seq<Task>, tasks': seq<Task>, t: nat)
    requires OnlyTask(tasks, tasks', t) && t < |tasks| && StaysGone(tasks[t], tasks'[t], t)
    ensures GoneStays(tasks, tasks')
  {
    forall u | 0 <= u < |tasks| ensures StaysGone(tasks[u], tasks'[u], u) {
      assert u != t ==> Marks(tasks'[u]) == Marks(tasks[u]);
    }
  }

  lemma OnlyTwice(a: seq<Task>, b: seq<Task>, c: seq<Task>, t: nat)
    requires OnlyTask(a, b, t) && OnlyTask(b, c, t)
    ensures OnlyTask(a, c, t)
  {
    forall u | 0 <= u < |a| && u != t ensures Marks(c[u]) == Marks(a[u]) {
      assert Marks(b[u]) == Marks(a[u]);
    }
  }

  /** Making a task ready keeps everything healthy unless it is being reaped. */
  lemma ReadiedInv(tasks: seq<Task>, tasks': seq<Task>, rqs: seq<Queue>, queues: seq<seq<nat>>,
                   rqs': seq<Queue>, queues': seq<seq<nat>>, reaped: set<nat>, nextId: nat, t: nat)
    requires SchedInv(tasks, rqs, queues, reaped, nextId) && Linked(tasks', rqs', queues') && t < MAX_TASKS
    requires OnlyTask(tasks, tasks', t) && !tasks[t].state.Reaping?
    requires tasks[t].id < CPUS ==> tasks' == tasks
    requires tasks[t].id >= CPUS ==> tasks'[t].onRq && Marks(tasks'[t]) == Marks(Readied(tasks[t], tasks'[t].rqCpu))
    ensures SchedInv(tasks', rqs', queues', reaped, nextId)
  {
    assert Placed(tasks, queues, t) && Healthy(tasks[t], t, reaped, nextId);
    OneHealthy(tasks, tasks', t, reaped, nextId);
  }

  /** A task taken off its queue may be blocked. */
  lemma BlockedInv(tasks: seq<Task>, mid: seq<Task>, rqs: seq<Queue>, queues: seq<seq<nat>>, reaped: set<nat>, nextId: nat, t: nat)
    requires |tasks| == MAX_TASKS && AllHealthy(tasks, reaped, nextId) && Distinct(tasks) && Linked(mid, rqs, queues) && t < MAX_TASKS
    requires CPUS <= nextId && (forall i :: i in reaped ==> CPUS <= i < nextId)
    requires OnlyTask(tasks, mid, t) && !tasks[t].state.Reaping?
    requires Marks(mid[t]) == Marks(tasks[t]).(onRq := mid[t].onRq)
    ensures SchedInv(mid[t := mid[t].(state := Blocked)], rqs, queues, reaped, nextId)
    ensures OnlyTask(tasks, mid[t := mid[t].(state := Blocked)], t)
  {
    assert Healthy(tasks[t], t, reaped, nextId) && Placed(mid, queues, t);
    FieldLinked(mid, rqs, queues, t, mid[t].(state := Blocked));
    OneHealthy(tasks, mid[t := mid[t].(state := Blocked)], t, reaped, nextId);
  }

  /** `t` is blocked and off its queue, and nothing else changed. */
  ghost predicate Retired(tasks: seq<Task>, queues: seq<seq<nat>>, tasks': seq<Task>, queues': seq<seq<nat>>, t: nat)
    requires t < |tasks|
  {
    && OnlyTask(tasks, tasks', t) && Core(tasks'[t]) == Core(tasks[t]).(state := Blocked) && !tasks'[t].onRq
    && if tasks[t].onRq then TakenFrom(queues, queues', t) else queues' == queues
  }

  /** Not an idle task, not gone, not about to be killed. */
  predicate CanPark(t: Task) { t.id >= CPUS && !Gone(t.state) && !t.kill }

  function Parked(t: Task): Task { if t.wake then t.(wake := false) else t.(state := Blocked) }

  /** The state of a task after its processor left it. */
  function AfterRun(t: Task): TaskState {
    if t.kill then Dead else if t.state.Running? then Ready else t.state
  }

  /** Whether a task its processor leaves goes back to the queue. */
  predicate Requeued(t: Task) { t.id >= CPUS && t.state.Running? && !t.kill }

  lemma HeadReady(tasks: seq<Task>, mid: seq<Task>, queues: seq<seq<nat>>, c: nat, p: nat)
    requires c < |queues| && queues[c] != [] && p < |tasks| && OnlyTask(tasks, mid, p) && NoStale(tasks, queues)
    requires !tasks[p].kill && (tasks[p].id < CPUS ==> mid == tasks) && Core(mid[p]) == Core(OutTask(tasks[p]))
    ensures !AllStale(mid, queues[c])
  {
    var t := queues[c][0];
    assert t in queues[c] && t < |tasks|;
    assert t != p ==> Marks(mid[t]) == Marks(tasks[t]);
    assert mid[t].state.Ready?;
  }

  /** Stealing from one longest queue is enough where no entry is stale: an idle choice means all queues are empty. */
  lemma IdleMeansEmpty(tasks: seq<Task>, queues: seq<seq<nat>>, mid: seq<Task>, midQueues: seq<seq<nat>>, cpu: nat, p: nat)
    requires |queues| == CPUS && cpu < CPUS && p < |tasks| && OnlyTask(tasks, mid, p) && NoStale(tasks, queues)
    requires !tasks[p].kill && (tasks[p].id < CPUS ==> mid == tasks) && Core(mid[p]) == Core(OutTask(tasks[p]))
    requires midQueues == OutQueues(tasks, queues, p, cpu) && Choice(mid, midQueues, cpu) == NONE
    ensures !Requeued(tasks[p]) && forall c :: 0 <= c < CPUS ==> queues[c] == []
  {
    PicksNothing(mid, midQueues, cpu);
    assert (queues[cpu] + [p])[|queues[cpu]|] == p;
    forall c | 0 <= c < CPUS ensures queues[c] == [] || !AllStale(mid, queues[c]) {
      if queues[c] != [] {
        HeadReady(tasks, mid, queues, c, p);
      }
    }
    assert IsVictim(midQueues, cpu, Victim(midQueues, cpu));
  }

  lemma SwitchedGone(tasks: seq<Task>, mid: seq<Task>, picked: seq<Task>, last: seq<Task>, next: nat)
    requires GoneStays(tasks, mid) && SameStates(mid, picked) && OnlyTask(picked, last, next)
    requires next < |mid| && (next < CPUS || mid[next].state.Ready?) && last[next].id == picked[next].id && last[next].used == picked[next].used
    requires last[next].kill == picked[next].kill
    ensures GoneStays(tasks, last)
  {
    forall t | 0 <= t < |tasks| ensures StaysGone(tasks[t], last[t], t) {
      assert t != next ==> Marks(last[t]) == Marks(picked[t]);
      assert picked[t].state == mid[t].state && picked[t].id == mid[t].id && picked[t].used == mid[t].used && picked[t].kill == mid[t].kill;
      assert StaysGone(tasks[t], mid[t], t);
    }
  }

  /** Fit to be dispatched: an idle task, or a ready one just taken off its queue. */
  ghost predicate Fresh(task: Task, t: nat, reaped: set<nat>, nextId: nat) {
    if t < CPUS then Healthy(task, t, reaped, nextId)
    else task.used && task.state.Ready? && !task.onRq && task.id !in reaped && task.id < nextId
  }

  /** Every queued task is ready. */
  ghost predicate NoStale(tasks: seq<Task>, queues: seq<seq<nat>>) {
    forall c :: 0 <= c < |queues| ==> forall t :: t in queues[c] ==> t < |tasks| && tasks[t].state.Ready?
  }

  datatype Waited = Collected(id: nat) | NoChild | Sleeps

  /** A child the caller waits for: any, or the one with this id. */
  predicate ChildOf(t: Task, parent: nat, pid: int) {
    t.used && t.parent == parent && (pid <= 0 || t.id == pid)
  }

  /** A task that is gone, but that some processor may still be running. */
  predicate Undead(t: Task, slot: nat) { slot >= CPUS && t.used && Gone(t.state) }

  function Killed(t: Task): Task {
    if t.state.Running? && t.cpu != NONE then t.(kill := true) else t.(state := Dead, sleep := 0, wake := false)
  }

  ghost predicate KilledAt(tasks: seq<Task>, tasks': seq<Task>, t: nat, id: nat)
    requires t < |tasks|
  {
    tasks[t].used && tasks[t].id == id && !Gone(tasks[t].state) && tasks' == tasks[t := Killed(tasks[t])]
  }

  /** The zombie child in the lowest slot. */
  ghost predicate FirstZombie(tasks: seq<Task>, id: nat, pid: int, t: nat)
    requires t < |tasks|
  {
    && ChildOf(tasks[t], id, pid) && tasks[t].state.Zombie?
    && forall u :: 0 <= u < t && ChildOf(tasks[u], id, pid) ==> !tasks[u].state.Zombie?
  }

  ghost predicate CollectedAt(tasks: seq<Task>, tasks': seq<Task>, t: nat, id: nat)
    requires t < |tasks|
  {
    tasks[t].state.Zombie? && tasks[t].id == id && tasks' == tasks[t := tasks[t].(state := Dead)]
  }

  /** Somebody may wait for the task: some used slot has its parent's id, and it is not the first user task. */
  ghost function LastState(tasks: seq<Task>, me: nat, init: int): TaskState
    requires me < |tasks|
  {
    if (exists u :: 0 <= u < |tasks| && Is(tasks[u], tasks[me].parent)) && tasks[me].id != init then Zombie else Dead
  }

  lemma LastIs(tasks: seq<Task>, me: nat, p: int, init: int)
    requires me < |tasks| && (p == NONE <==> forall u :: 0 <= u < |tasks| ==> !(tasks[u].used && tasks[u].id == tasks[me].parent))
    ensures LastState(tasks, me, init) == if p == NONE || tasks[me].id == init then Dead else Zombie
  {
    if p != NONE {
      var u :| 0 <= u < |tasks| && tasks[u].used && tasks[u].id == tasks[me].parent;
      assert Is(tasks[u], tasks[me].parent);
    }
  }

  predicate Is(t: Task, id: int) { t.used && t.id == id }

  ghost predicate ParentAsleep(tasks: seq<Task>, t: nat, me: nat)
    requires t < |tasks| && me < |tasks|
  {
    t != me && Is(tasks[t], tasks[me].parent) && tasks[t].state.Blocked? && tasks[t].id >= CPUS
  }

  /** A parent that sleeps becomes ready; nothing else changes, places in queues aside. */
  ghost predicate Roused(tasks: seq<Task>, tasks': seq<Task>, t: nat, me: nat)
    requires t < |tasks| && me < |tasks|
  {
    t < |tasks'| && Core(tasks'[t]) == if ParentAsleep(tasks, t, me) then Core(tasks[t]).(state := Ready) else Core(tasks[t])
  }

  lemma AllRoused(tasks: seq<Task>, mid: seq<Task>, tasks': seq<Task>, me: nat, p: int)
    requires me < |tasks| == |tasks'| == |mid| && mid == tasks[me := mid[me]] && Distinct(tasks) && !mid[me].state.Blocked?
    requires p == NONE <==> forall u :: 0 <= u < |tasks| ==> !(tasks[u].used && tasks[u].id == tasks[me].parent)
    requires p != NONE ==> 0 <= p < |tasks| && tasks[p].used && tasks[p].id == tasks[me].parent
    requires forall t :: 0 <= t < |tasks| ==>
      Core(tasks'[t]) == if t == p && mid[t].state.Blocked? && mid[t].id >= CPUS then Core(mid[t]).(state := Ready) else Core(mid[t])
    ensures forall t :: 0 <= t < |tasks| && t != me ==> Roused(tasks, tasks', t, me)
  {
    forall t | 0 <= t < |tasks| && t != me ensures Roused(tasks, tasks', t, me) {
      if ParentAsleep(tasks, t, me) {
        assert t == p;
      }
    }
  }

  /** What an exit does to another task: a child passes to the first user task, a parent that sleeps becomes ready. */
  ghost predicate Bereft(tasks: seq<Task>, tasks': seq<Task>, t: nat, me: nat, init: int)
    requires t < |tasks| && me < |tasks|
  {
    && t < |tasks'|
    && Core(tasks'[t]) == Core(tasks[t]).(
         parent := if tasks[t].used && tasks[t].parent == tasks[me].id then init else tasks[t].parent,
         state := if ParentAsleep(tasks, t, me) then Ready else tasks[t].state)
  }

  /** Handing the children on changes neither who waits for a task nor how it ends. */
  lemma SameLast(tasks: seq<Task>, tasks': seq<Task>, me: nat, id: nat, init: int)
    requires |tasks'| == |tasks| && me < |tasks| && forall t :: 0 <= t < |tasks| ==> tasks'[t] == Orphaned(tasks[t], t == me, id, init)
    ensures LastState(tasks', me, init) == LastState(tasks, me, init)
    ensures forall t :: 0 <= t < |tasks| ==> (ParentAsleep(tasks', t, me) <==> ParentAsleep(tasks, t, me))
  {
    assert forall t :: 0 <= t < |tasks| ==> Is(tasks'[t], tasks[me].parent) == Is(tasks[t], tasks[me].parent);
  }

  ghost predicate TakenFrom(queues: seq<seq<nat>>, queues': seq<seq<nat>>, t: nat) {
    exists c: nat, k: nat :: c < |queues| && k < |queues[c]| && queues[c][k] == t && queues' == queues[c := Cut(queues[c], k)]
  }

  function Orphaned(t: Task, me: bool, id: nat, to: int): Task {
    if t.used && t.parent == id && !me then t.(parent := to) else t
  }

  /** What a tick does to one task: nothing, one count less, or one count less and ready. */
  ghost predicate Ticked(a: Task, b: Task) {
    if !(a.used && a.state.Blocked? && a.sleep > 0) then Marks(b) == Marks(a)
    else
      && Core(b) == Core(a).(sleep := a.sleep - 1, state := if a.sleep == 1 && a.id >= CPUS then Ready else Blocked)
      && (a.sleep == 1 && a.id >= CPUS ==> b.onRq)
  }

  lemma TickOn(tasks: seq<Task>, before: seq<Task>, after: seq<Task>, t: nat)
    requires t < |tasks| && |before| == |tasks| && OnlyTask(before, after, t) && GoneStays(tasks, before)
    requires GoneStays(before, after) || after == before
    requires forall u :: 0 <= u < t ==> Ticked(tasks[u], before[u])
    requires forall u :: t <= u < |tasks| ==> Marks(before[u]) == Marks(tasks[u])
    requires Ticked(before[t], after[t])
    ensures GoneStays(tasks, after)
    ensures forall u :: 0 <= u <= t ==> Ticked(tasks[u], after[u])
    ensures forall u :: t < u < |tasks| ==> Marks(after[u]) == Marks(tasks[u])
  {
    forall u | 0 <= u < |tasks| ensures StaysGone(tasks[u], after[u], u) {
      assert StaysGone(tasks[u], before[u], u);
      assert u != t ==> Marks(after[u]) == Marks(before[u]);
      assert u == t ==> after == before || StaysGone(before[t], after[t], t);
    }
    forall u | 0 <= u <= t ensures Ticked(tasks[u], after[u]) {
      if u < t {
        assert Marks(after[u]) == Marks(before[u]);
      }
    }
  }

  lemma GoneTwice(a: seq<Task>, b: seq<Task>, c: seq<Task>)
    requires GoneStays(a, b) && (GoneStays(b, c) || b == c)
    ensures GoneStays(a, c)
  {
    forall t | 0 <= t < |a| ensures StaysGone(a[t], c[t], t) {
      assert StaysGone(a[t], b[t], t);
      assert b == c || StaysGone(b[t], c[t], t);
    }
  }

  /**
   `sched_wait4` blocks its caller whatever state it is in.  That revives a dead task exactly
   when the caller is already gone, and confuses the reaper exactly when it is being reaped.
   */
  lemma BlockingTheGone(tasks: seq<Task>, rqs: seq<Queue>, queues: seq<seq<nat>>, reaped: set<nat>, nextId: nat, t: nat)
    requires SchedInv(tasks, rqs, queues, reaped, nextId) && t < MAX_TASKS
    ensures GoneStays(tasks, tasks[t := tasks[t].(state := Blocked)]) <==> !Undead(tasks[t], t)
    ensures SchedInv(tasks[t := tasks[t].(state := Blocked)], rqs, queues, reaped, nextId) <==> !(Undead(tasks[t], t) && tasks[t].state.Reaping?)
  {
    var task := tasks[t].(state := Blocked);
    assert Healthy(tasks[t], t, reaped, nextId);
    if !Undead(tasks[t], t) {
      OnlyGoneStays(tasks, tasks[t := task], t);
    } else {
      assert !StaysGone(tasks[t], tasks[t := task][t], t);
    }
    if !(Undead(tasks[t], t) && tasks[t].state.Reaping?) {
      FieldInv(tasks, rqs, queues, reaped, nextId, t, task);
    } else {
      assert !Healthy(tasks[t := task][t], t, reaped, nextId);
    }
  }

  /** `task_exit` stores its final state unconditionally: a second reaping unless it is not being reaped. */
  lemma ExitingTwice(tasks: seq<Task>, rqs: seq<Queue>, queues: seq<seq<nat>>, reaped: set<nat>, nextId: nat, t: nat, last: TaskState)
    requires SchedInv(tasks, rqs, queues, reaped, nextId) && t < MAX_TASKS && (last.Dead? || last.Zombie?)
    ensures Linked(tasks[t := tasks[t].(state := last)], rqs, queues)
    ensures SchedInv(tasks[t := tasks[t].(state := last)], rqs, queues, reaped, nextId) <==> !BeingReaped(tasks[t], t)
    ensures BeingReaped(tasks[t], t) ==> Unhealthy(tasks[t].(state := last), t, reaped)
  {
    var task := tasks[t].(state := last);
    assert Healthy(tasks[t], t, reaped, nextId);
    FieldLinked(tasks, rqs, queues, t, task);
    if !BeingReaped(tasks[t], t) {
      FieldInv(tasks, rqs, queues, reaped, nextId, t, task);
    } else {
      assert !Healthy(tasks[t := task][t], t, reaped, nextId);
    }
  }

  predicate BeingReaped(t: Task, slot: nat) { slot >= CPUS && t.used && t.state.Reaping? }

  /** On the reaper's list but no longer in the state that keeps others away. */
  ghost predicate Unhealthy(t: Task, slot: nat, reaped: set<nat>) {
    slot >= CPUS && t.used && !t.state.Reaping? && t.id in reaped
  }

  /** A slot as `sched_clear_task` leaves it, all zero. */
  const CLEARED := Task(false, 0, Running, 0, false, false, 0, 0, 0, false, NONE)

  function Idle(t: nat): Task { Task(true, t, Running, t, false, false, 0, 0, t, false, NONE) }

  function Born(t: Task, id: nat): Task {
    t.(used := true, id := id, state := Blocked, cpu := NONE, parent := NONE, rqCpu := NONE, onRq := false)
  }

  /** Slots may be freed and reused, but an id never comes back, and the gone never return. */
  ghost predicate Evolved(tasks: seq<Task>, nextId: nat, tasks': seq<Task>, nextId': nat) {
    && |tasks'| == |tasks| && nextId <= nextId'
    && forall t :: CPUS <= t < |tasks| && tasks'[t].used ==>
         if tasks[t].used && tasks'[t].id == tasks[t].id
         then (Gone(tasks[t].state) ==> Gone(tasks'[t].state)) && (tasks[t].kill ==> tasks'[t].kill || Gone(tasks'[t].state))
         else tasks'[t].id >= nextId
  }

  datatype TaskRegion = Wake | Park | Unpark | Block | Adopt(parent: int) | Detach | Clear
  datatype CpuRegion = Schedule | Tick | Exit | Wait(pid: int) | Sleep(ticks: nat) | Kill(id: nat)
  datatype Event = Birth(user: bool, stack: bool) | OnTask(t: nat, what: TaskRegion) | OnCpu(cpu: nat, how: CpuRegion)

  /** A task that waits or exits is alive, or at least not already being reaped. */
  predicate Lawful(ev: Event, tasks: seq<Task>, current: seq<nat>) {
    ev.OnCpu? && ev.cpu < |current| && current[ev.cpu] < |tasks| ==>
      var me := current[ev.cpu];
      && (ev.how.Wait? ==> !Undead(tasks[me], me))
      && (ev.how.Exit? ==> !BeingReaped(tasks[me], me))
  }

  lemma StayedEvolved(tasks: seq<Task>, tasks': seq<Task>, nextId: nat)
    requires GoneStays(tasks, tasks') || tasks == tasks'
    requires forall t :: CPUS <= t < |tasks| && tasks[t].used ==> tasks[t].id < nextId
    ensures Evolved(tasks, nextId, tasks', nextId)
  {
    forall t | CPUS <= t < |tasks| && tasks'[t].used
      ensures if tasks[t].used && tasks'[t].id == tasks[t].id then Gone(tasks[t].state) ==> Gone(tasks'[t].state) else tasks'[t].id >= nextId
    {
      assert tasks == tasks' || StaysGone(tasks[t], tasks'[t], t);
    }
  }

  lemma EvolvedTwice(a: seq<Task>, idA: nat, b: seq<Task>, idB: nat, c: seq<Task>, idC: nat, reaped: set<nat>)
    requires Evolved(a, idA, b, idB) && Evolved(b, idB, c, idC)
    requires AllHealthy(a, reaped, idA)
    ensures Evolved(a, idA, c, idC)
  {
    forall t | CPUS <= t < |a| && c[t].used
      ensures if a[t].used && c[t].id == a[t].id then Gone(a[t].state) ==> Gone(c[t].state) else c[t].id >= idA
    {
      assert Healthy(a[t], t, reaped, idA);
    }
  }

  lemma BornInv(tasks: seq<Task>, rqs: seq<Queue>, queues: seq<seq<nat>>, reaped: set<nat>, nextId: nat, t: nat)
    requires SchedInv(tasks, rqs, queues, reaped, nextId) && CPUS <= t < MAX_TASKS && !tasks[t].used
    ensures SchedInv(tasks[t := Born(tasks[t], nextId)], rqs, queues, reaped, nextId + 1)
  {
    var tasks' := tasks[t := Born(tasks[t], nextId)];
    assert Healthy(tasks[t], t, reaped, nextId);
    SlotLinked(tasks, rqs, queues, t, tasks'[t]);
    forall u | 0 <= u < MAX_TASKS ensures Healthy(tasks'[u], u, reaped, nextId + 1) {
      assert Healthy(tasks[u], u, reaped, nextId);
    }
    forall x, y | 0 <= x < y < MAX_TASKS && tasks'[x].used && tasks'[y].used ensures tasks'[x].id != tasks'[y].id {
      assert Healthy(tasks[x], x, reaped, nextId) && Healthy(tasks[y], y, reaped, nextId);
      assert Placed(tasks, queues, x) && Placed(tasks, queues, y);
    }
  }

  /** A slot off every queue may be given away. */
  lemma SlotLinked(tasks: seq<Task>, rqs: seq<Queue>, queues: seq<seq<nat>>, t: nat, task: Task)
    requires Linked(tasks, rqs, queues) && CPUS <= t < MAX_TASKS && !tasks[t].onRq && !task.onRq
    requires if task.used then task.id >= CPUS else task.id == 0
    ensures Linked(tasks[t := task], rqs, queues)
  {
    var tasks' := tasks[t := task];
    forall c | 0 <= c < CPUS ensures Chained(tasks', rqs[c], queues[c], c) {
      assert Chained(tasks, rqs[c], queues[c], c);
      Queued(tasks, rqs, queues, t, c);
      ChainFrame(tasks, tasks', rqs[c], queues[c], c);
    }
    forall u | 0 <= u < MAX_TASKS ensures Placed(tasks', queues, u) {
      assert Placed(tasks, queues, u);
    }
  }

  lemma BornEvolved(tasks: seq<Task>, mid: seq<Task>, last: seq<Task>, t: nat, nextId: nat)
    requires t < |tasks| && !tasks[t].used && mid == tasks[t := Born(tasks[t], nextId)]
    requires OnlyTask(mid, last, t) && last[t].used && last[t].id == nextId
    ensures Evolved(tasks, nextId, last, nextId + 1)
  {
    forall u | CPUS <= u < |tasks| && last[u].used
      ensures if tasks[u].used && last[u].id == tasks[u].id then Gone(tasks[u].state) ==> Gone(last[u].state) else last[u].id >= nextId
    {
      assert u != t ==> Marks(last[u]) == Marks(mid[u]);
    }
  }

  lemma DetachInv(tasks: seq<Task>, mid: seq<Task>, rqs: seq<Queue>, queues: seq<seq<nat>>, reaped: set<nat>, nextId: nat, t: nat)
    requires |tasks| == MAX_TASKS && AllHealthy(tasks, reaped, nextId) && Distinct(tasks) && Linked(mid, rqs, queues)
    requires CPUS <= t < MAX_TASKS && CPUS <= nextId && (forall i :: i in reaped ==> CPUS <= i < nextId)
    requires OnlyTask(tasks, mid, t) && tasks[t].used && tasks[t].state.Dead? && tasks[t].cpu == NONE
    requires Marks(mid[t]) == Marks(tasks[t]).(onRq := false)
    ensures SchedInv(mid[t := mid[t].(state := Reaping)], rqs, queues, reaped + {tasks[t].id}, nextId)
    ensures OnlyTask(tasks, mid[t := mid[t].(state := Reaping)], t)
  {
    var last := mid[t := mid[t].(state := Reaping)];
    var reaped' := reaped + {tasks[t].id};
    assert Healthy(tasks[t], t, reaped, nextId) && Placed(mid, queues, t);
    FieldLinked(mid, rqs, queues, t, last[t]);
    forall u | 0 <= u < MAX_TASKS && u != t ensures Healthy(last[u], u, reaped', nextId) {
      assert Healthy(tasks[u], u, reaped, nextId);
      assert Marks(last[u]) == Marks(tasks[u]);
      assert u < t || t < u;
    }
    assert Healthy(last[t], t, reaped', nextId);
    forall x, y | 0 <= x < y < MAX_TASKS && last[x].used && last[y].used ensures last[x].id != last[y].id {
      assert x != t ==> Marks(last[x]) == Marks(tasks[x]);
      assert y != t ==> Marks(last[y]) == Marks(tasks[y]);
    }
  }

  lemma ClearInv(tasks: seq<Task>, rqs: seq<Queue>, queues: seq<seq<nat>>, reaped: set<nat>, nextId: nat, t: nat)
    requires SchedInv(tasks, rqs, queues, reaped, nextId) && CPUS <= t < MAX_TASKS && tasks[t].used && tasks[t].state.Reaping?
    ensures SchedInv(tasks[t := CLEARED], rqs, queues, reaped, nextId)
  {
    var last := tasks[t := CLEARED];
    assert Healthy(tasks[t], t, reaped, nextId);
    SlotLinked(tasks, rqs, queues, t, CLEARED);
    forall u | 0 <= u < MAX_TASKS ensures Healthy(last[u], u, reaped, nextId) {
      assert Healthy(tasks[u], u, reaped, nextId);
    }
  }

  lemma Lengths(tasks: seq<Task>, rqs: seq<Queue>, queues: seq<seq<nat>>)
    requires Linked(tasks, rqs, queues)
    ensures forall c :: 0 <= c < CPUS ==> rqs[c].nr == |queues[c]|
  {
    forall c | 0 <= c < CPUS ensures rqs[c].nr == |queues[c]| {
      assert Chained(tasks, rqs[c], queues[c], c);
    }
  }

  lemma FoundUsed(tasks: seq<Task>, rqs: seq<Queue>, queues: seq<seq<nat>>, cpu: nat, k: nat)
    requires Linked(tasks, rqs, queues) && cpu < CPUS && k < |queues[cpu]|
    ensures queues[cpu][k] < |tasks| && tasks[queues[cpu][k]].used
  {
    InChain(tasks, rqs, queues, cpu, k);
    assert Placed(tasks, queues, queues[cpu][k]);
  }

  lemma TakenTask(tasks: seq<Task>, tasks': seq<Task>, rqs: seq<Queue>, queues: seq<seq<nat>>, cpu: nat, t: int)
    requires Linked(tasks, rqs, queues) && cpu < CPUS && Drained(tasks, tasks', Taken(tasks, queues[cpu]))
    requires var q := queues[cpu]; var k := FirstReady(tasks, q); t == if k < |q| then q[k] else NONE
    ensures SameStates(tasks, tasks') && (t == NONE ==> AllStale(tasks, queues[cpu]))
    ensures t != NONE ==> 0 <= t < |tasks| && tasks[t].used && tasks[t].state.Ready? && Picked(tasks[t], tasks'[t])
  {
    var q := queues[cpu];
    if t != NONE {
      FoundUsed(tasks, rqs, queues, cpu, FirstReady(tasks, q));
      assert Taken(tasks, q)[FirstReady(tasks, q)] == t;
    }
  }

  /** What `TakeReady` leaves behind is healthy but for the task it hands out. */
  lemma TakenHealthy(tasks: seq<Task>, tasks': seq<Task>, rqs: seq<Queue>, queues: seq<seq<nat>>, cpu: nat, t: int,
                     reaped: set<nat>, nextId: nat)
    requires Linked(tasks, rqs, queues) && AllHealthy(tasks, reaped, nextId) && Distinct(tasks) && cpu < CPUS
    requires Drained(tasks, tasks', Taken(tasks, queues[cpu]))
    requires var q := queues[cpu]; var k := FirstReady(tasks, q); t == if k < |q| then q[k] else NONE
    ensures RestHealthy(tasks', reaped, nextId, t) && Distinct(tasks') && SameStates(tasks, tasks')
    ensures t == NONE ==> AllStale(tasks, queues[cpu]) && AllHealthy(tasks', reaped, nextId)
    ensures t != NONE ==> 0 <= t < |tasks| && tasks[t].used && tasks[t].state.Ready? && Picked(tasks[t], tasks'[t])
  {
    var q := queues[cpu];
    TakenTask(tasks, tasks', rqs, queues, cpu, t);
    forall u | 0 <= u < |tasks| && u in Taken(tasks, q) && u != t ensures !tasks[u].state.Ready? {
      if tasks[u].state.Ready? {
        TakenStale(tasks, q, u);
      }
    }
    DrainedHealthy(tasks, tasks', Taken(tasks, q), t, reaped, nextId);
  }

  /** A task off every queue may be assigned to any. */
  lemma StealLinked(tasks: seq<Task>, rqs: seq<Queue>, queues: seq<seq<nat>>, t: nat, cpu: nat)
    requires Linked(tasks, rqs, queues) && t < MAX_TASKS && !tasks[t].onRq
    ensures Linked(tasks[t := tasks[t].(rqCpu := cpu)], rqs, queues)
  {
    var tasks' := tasks[t := tasks[t].(rqCpu := cpu)];
    forall c | 0 <= c < CPUS ensures Chained(tasks', rqs[c], queues[c], c) {
      assert Chained(tasks, rqs[c], queues[c], c);
      Queued(tasks, rqs, queues, t, c);
      ChainFrame(tasks, tasks', rqs[c], queues[c], c);
    }
    forall u | 0 <= u < MAX_TASKS ensures Placed(tasks', queues, u) {
      assert Placed(tasks, queues, u);
    }
  }

  /** Emptying its own stale queue does not change what a processor picks. */
  lemma EmptiedChoice(tasks: seq<Task>, mid: seq<Task>, queues: seq<seq<nat>>, cpu: nat)
    requires |queues| == CPUS && cpu < CPUS && SameStates(tasks, mid) && ReadyOf(tasks, queues[cpu]) == NONE
    ensures Choice(mid, queues[cpu := []], cpu) == Choice(tasks, queues, cpu)
    ensures AfterPick(mid, queues[cpu := []], cpu) == AfterPick(tasks, queues, cpu)
  {
    StaleMeans(tasks, queues[cpu]);
    var emptied, v := queues[cpu := []], Victim(queues, cpu);
    assert IsVictim(emptied, cpu, v);
    OneVictim(emptied, cpu, v, Victim(emptied, cpu));
    StatesReady(tasks, mid, queues[v]);
    SameFirst(tasks, mid, queues[v]);
    assert emptied[cpu := []] == emptied;
  }

  lemma StatesReady(tasks: seq<Task>, mid: seq<Task>, q: seq<nat>)
    requires SameStates(tasks, mid)
    ensures forall t :: t in q ==> (IsReady(tasks, t) <==> IsReady(mid, t))
  {
  }

  /** Off its queue, perhaps stolen, otherwise unchanged. */
  ghost predicate Picked(was: Task, now: Task) {
    Marks(now) == was.(onRq := false, rqNext := NONE, rqCpu := now.rqCpu)
  }

  /** A task without its place in the queues. */
  function Core(t: Task): Task { t.(rqCpu := 0, onRq := false, rqNext := 0) }

  ghost predicate SameStates(tasks: seq<Task>, tasks': seq<Task>) {
    |tasks'| == |tasks| && forall u :: 0 <= u < |tasks| ==> Core(tasks'[u]) == Core(tasks[u])
  }

  /** A task after its processor left it. */
  function OutTask(t: Task): Task { if t.id < CPUS then t else t.(kill := false, state := AfterRun(t), cpu := NONE) }

  ghost function OutTasks(tasks: seq<Task>, p: nat): seq<Task>
    requires p < |tasks|
  {
    tasks[p := OutTask(tasks[p])]
  }

  /** The queues once the outgoing task, if it can go on, is at the end of its processor's. */
  ghost function OutQueues(tasks: seq<Task>, queues: seq<seq<nat>>, p: nat, cpu: nat): seq<seq<nat>>
    requires p < |tasks| && cpu < |queues|
  {
    if Requeued(tasks[p]) then queues[cpu := queues[cpu] + [p]] else queues
  }

  /** What `schedule` does: `p` leaves, `Choice` or the idle task comes, and nobody else changes. */
  ghost predicate Switched(tasks: seq<Task>, queues: seq<seq<nat>>, p: nat, cpu: nat,
                           tasks': seq<Task>, queues': seq<seq<nat>>, next: nat)
    requires p < |tasks| && cpu < |queues|
  {
    var ts, qs := OutTasks(tasks, p), OutQueues(tasks, queues, p, cpu);
    && next == (if Choice(ts, qs, cpu) == NONE then cpu else Choice(ts, qs, cpu))
    && queues' == AfterPick(ts, qs, cpu)
    && |tasks'| == |tasks| && next < |tasks|
    && Core(tasks'[next]) == Core(ts[next]).(state := Running, cpu := cpu)
    && forall u :: 0 <= u < |tasks| && u != next ==> Core(tasks'[u]) == Core(ts[u])
  }

  /**
   A switch, task by task, places in queues aside: the one that leaves is dead if it was
   to be killed and ready if it was running; the one that comes was ready, or is the idle
   one; nobody else changes.
   */
  ghost predicate HandsOver(tasks: seq<Task>, p: nat, cpu: nat, tasks': seq<Task>, next: nat)
    requires p < |tasks|
  {
    && |tasks'| == |tasks| && next < |tasks| && tasks'[next].state == Running && tasks'[next].cpu == cpu
    && (forall u :: 0 <= u < |tasks| && u != p && u != next ==> Core(tasks'[u]) == Core(tasks[u]))
    && (next != p && next != cpu ==> tasks[next].state == Ready)
    && (next != p ==> Core(tasks'[next]) == Core(tasks[next]).(state := Running, cpu := cpu))
    && (next == p && tasks[p].id >= CPUS ==> !tasks[p].kill && (tasks[p].state == Running || tasks[p].state == Ready))
    && (next != p && tasks[p].id < CPUS ==> Core(tasks'[p]) == Core(tasks[p]))
    && (next != p && tasks[p].id >= CPUS ==> Core(tasks'[p]) == Core(tasks[p]).(cpu := NONE, kill := false,
         state := if tasks[p].kill then Dead else if tasks[p].state == Running then Ready else tasks[p].state))
  }

  lemma SwitchMeans(tasks: seq<Task>, queues: seq<seq<nat>>, p: nat, cpu: nat, tasks': seq<Task>, queues': seq<seq<nat>>, next: nat)
    requires p < |tasks| && cpu < |queues| && Switched(tasks, queues, p, cpu, tasks', queues', next)
    requires cpu < |tasks| && tasks[cpu].id < CPUS
    ensures HandsOver(tasks, p, cpu, tasks', next)
  {
    var ts, qs := OutTasks(tasks, p), OutQueues(tasks, queues, p, cpu);
    if Choice(ts, qs, cpu) != NONE {
      PickMeans(ts, qs, cpu, Victim(qs, cpu));
    }
    assert ts[p] == OutTask(tasks[p]);
  }

  lemma SwitchedExact(tasks: seq<Task>, queues: seq<seq<nat>>, p: nat, cpu: nat,
                      mid: seq<Task>, picked: seq<Task>, last: seq<Task>, next: nat)
    requires p < |tasks| && cpu < |queues| == CPUS && OnlyTask(tasks, mid, p) && Core(mid[p]) == Core(OutTask(tasks[p]))
    requires SameStates(mid, picked) && next < |tasks| && last == picked[next := picked[next].(state := Running, cpu := cpu)]
    requires next == (if Choice(mid, OutQueues(tasks, queues, p, cpu), cpu) == NONE then cpu else Choice(mid, OutQueues(tasks, queues, p, cpu), cpu))
    ensures Switched(tasks, queues, p, cpu, last, AfterPick(mid, OutQueues(tasks, queues, p, cpu), cpu), next)
    ensures Choice(OutTasks(tasks, p), OutQueues(tasks, queues, p, cpu), cpu) == Choice(mid, OutQueues(tasks, queues, p, cpu), cpu)
  {
    var ts, qs := OutTasks(tasks, p), OutQueues(tasks, queues, p, cpu);
    forall u | 0 <= u < |tasks| ensures Core(mid[u]) == Core(ts[u]) {
      assert u != p ==> Marks(mid[u]) == Marks(tasks[u]);
    }
    SameChoice(ts, mid, qs, cpu);
  }

  /** Places in the queues' links do not matter to the choice. */
  lemma SameChoice(tasks: seq<Task>, mid: seq<Task>, queues: seq<seq<nat>>, cpu: nat)
    requires cpu < |queues| && SameStates(tasks, mid)
    ensures Choice(mid, queues, cpu) == Choice(tasks, queues, cpu) && AfterPick(mid, queues, cpu) == AfterPick(tasks, queues, cpu)
  {
    StatesReady(tasks, mid, queues[cpu]);
    SameFirst(tasks, mid, queues[cpu]);
    StatesReady(tasks, mid, queues[Victim(queues, cpu)]);
    SameFirst(tasks, mid, queues[Victim(queues, cpu)]);
  }

  /** A processor goes idle past a ready task exactly if it overlooks it. */
  lemma IdleExact(tasks: seq<Task>, queues: seq<seq<nat>>, p: nat, cpu: nat,
                  tasks': seq<Task>, queues': seq<seq<nat>>, next: nat, rqs': seq<Queue>)
    requires p < |tasks| && cpu < |queues| == CPUS && Switched(tasks, queues, p, cpu, tasks', queues', next)
    requires Linked(tasks', rqs', queues')
    requires next < CPUS ==> Choice(OutTasks(tasks, p), OutQueues(tasks, queues, p, cpu), cpu) == NONE
    ensures next == cpu && HoldsReady(tasks', queues') <==> Overlooks(OutTasks(tasks, p), OutQueues(tasks, queues, p, cpu), cpu)
  {
    var ts, qs := OutTasks(tasks, p), OutQueues(tasks, queues, p, cpu);
    OverlooksExact(ts, qs, cpu);
    if next == cpu {
      forall c | 0 <= c < CPUS ensures AllStale(tasks', queues'[c]) <==> AllStale(ts, queues'[c]) {
        forall t | t in queues'[c] ensures IsReady(tasks', t) <==> IsReady(ts, t) {
          assert t < |tasks'| ==> t != next by {
            if t < |tasks'| {
              Queued(tasks', rqs', queues', t, c);
            }
          }
        }
      }
    }
  }

  lemma Pieces(q: seq<nat>, k: nat)
    requires k <= |q|
    ensures k == |q| ==> q[..k] == q && q[k..] == []
    ensures k < |q| ==> FirstOf(q[k..]) == q[k] && q[k..][1..] == q[k + 1..] && q[..k] + [q[k]] == q[..k + 1]
  {
  }

  lemma HeadTail(tasks: seq<Task>, rq: Queue, q: seq<nat>, cpu: nat)
    requires Chained(tasks, rq, q, cpu) && q != [] && q[0] < |tasks|
    ensures tasks[q[0]].rqNext == NONE <==> |q| == 1
    ensures rq.tail == q[0] <==> |q| == 1
  {
    assert LinkOk(tasks, q, 0, cpu);
    if |q| > 1 {
      assert LinkOk(tasks, q, 1, cpu);
      assert q[0] != q[|q| - 1];
    }
  }
}
