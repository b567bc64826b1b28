/**
 Runs of the scheduler, from `sched_init`, that end where one would not expect: a processor
 that idles past a ready task, and a dead task that comes back to life.
 */
module SchedulerRuns {
  import opened RunQueue
  import opened Picking
  import opened Scheduler

  /** Slots 4 and 5 hold tasks 4 and 5, the others idle tasks or nothing. */
  ghost predicate Cast(tasks: seq<Task>) {
    && |tasks| == MAX_TASKS
    && (forall t :: 0 <= t < CPUS ==> tasks[t].used && tasks[t].id == t && tasks[t].parent == 0)
    && (forall t :: 6 <= t < MAX_TASKS ==> !tasks[t].used)
    && tasks[4].used && tasks[4].id == 4 && tasks[5].used && tasks[5].id == 5
  }

  /** The scheduler with its two tasks, these queues and these current tasks. */
  ghost predicate Scene(s: Scheduler, queues: seq<seq<nat>>, current: seq<nat>)
    reads s
  {
    s.Valid() && Cast(s.tasks) && s.queues == queues && s.current == current
  }

  /** Only one queue is the lightest. */
  lemma SpreadTo(queues: seq<seq<nat>>, start: nat, t: nat, queues': seq<seq<nat>>, start': nat, b: nat)
    requires |queues| == CPUS && start < CPUS && Spread(queues, start, t, false, queues', start') && Lightest(queues, start, b)
    ensures start' == (b + 1) % CPUS && queues' == queues[b := queues[b] + [t]]
  {
    var c: nat :| Lightest(queues, start, c) && start' == (c + 1) % CPUS && queues' == queues[c := queues[c] + [t]];
    assert Turn(start, b) == Turn(start, c);
  }

  predicate Newborn(t: Task, id: nat) {
    t.used && t.id == id && t.state.Ready? && t.cpu == NONE && !t.kill && !t.wake
  }

  /** A kernel task is created: it joins the first queue. */
  method FirstBirth() returns (s: Scheduler)
    ensures fresh(s) && s.Valid() && s.queues == [[4], [], [], []] && s.current == [0, 1, 2, 3] && s.nextEnqueue == 1 && s.nextId == 5
    ensures forall t :: 0 <= t < MAX_TASKS && t != 4 ==> Marks(s.tasks[t]) == Marks(if t < CPUS then Idle(t) else CLEARED)
    ensures Newborn(s.tasks[4], 4)
  {
    s := new Scheduler();
    ghost var queues := s.queues;
    assert queues == [[], [], [], []];
    assert s.current == [0, 1, 2, 3];
    assert !s.tasks[4].used;
    var a := s.Create(false, true);
    SpreadTo(queues, 0, 4, s.queues, s.nextEnqueue, 0);
    assert queues[0] + [4] == [4];
    assert s.queues == [[4], [], [], []];
  }

  /** Two kernel tasks: the second joins the second queue. */
  method Births() returns (s: Scheduler)
    ensures fresh(s) && Scene(s, [[4], [5], [], []], [0, 1, 2, 3]) && s.nextEnqueue == 2
    ensures Newborn(s.tasks[4], 4) && Newborn(s.tasks[5], 5)
  {
    s := FirstBirth();
    ghost var tasks := s.tasks;
    assert Marks(tasks[5]) == Marks(CLEARED) && !tasks[5].used && tasks[4].used;
    var b := s.Create(false, true);
    SpreadTo([[4], [], [], []], 1, 5, s.queues, s.nextEnqueue, 1);
    assert [] + [5] == [5];
    assert s.queues == [[4], [5], [], []];
    assert Marks(s.tasks[4]) == Marks(tasks[4]);
    forall t | 0 <= t < MAX_TASKS && t != 4 && t != 5 ensures Marks(s.tasks[t]) == Marks(if t < CPUS then Idle(t) else CLEARED) {
      assert Marks(s.tasks[t]) == Marks(tasks[t]);
    }
    Cast2(s.tasks);
  }

  lemma Cast2(tasks: seq<Task>)
    requires |tasks| == MAX_TASKS && Newborn(tasks[4], 4) && Newborn(tasks[5], 5)
    requires forall t :: 0 <= t < MAX_TASKS && t != 4 && t != 5 ==> Marks(tasks[t]) == Marks(if t < CPUS then Idle(t) else CLEARED)
    ensures Cast(tasks)
  {
  }

  // ---------------------------------------------------------------- idling past work

  /**
   Task 4 is killed where it waits in the first queue.  Processor 2, with nothing of its own,
   looks there because that queue is as long as any other, finds only the dead task, and goes
   idle although task 5 is ready in the second queue.  `schedule` runs the reaper before it
   takes the scheduler's lock, so the kill has to come between the two.
   */
  method IdlesPastWork() returns (s: Scheduler)
    ensures fresh(s) && s.Valid() && s.current[2] == 2
    ensures 5 in s.queues[1] && s.tasks[5].state.Ready? && HoldsReady(s.tasks, s.queues)
  {
    s := Births();
    ghost var tasks := s.tasks;
    var killed := s.Kill(3, 4);
    assert killed by {
      assert s.tasks[4].used && s.tasks[4].id == 4;
    }
    ghost var dead := s.tasks;
    KilledFour(tasks, dead);
    OneStale(dead);
    s.Schedule(2);
    assert s.queues[1] == [5];
  }

  lemma KilledFour(tasks: seq<Task>, dead: seq<Task>)
    requires Cast(tasks) && exists t :: CPUS <= t < MAX_TASKS && KilledAt(tasks, dead, t, 4)
    ensures dead == tasks[4 := Killed(tasks[4])]
  {
  }

  /** With a dead task 4 in queue 0 and a ready task 5 in queue 1, processor 2 picks nothing. */
  lemma OneStale(tasks: seq<Task>)
    requires |tasks| == MAX_TASKS && tasks[4].state.Dead? && tasks[5].state.Ready? && tasks[2].id == 2
    ensures OutTasks(tasks, 2) == tasks
    ensures var qs := [[4], [5], [], []];
      && OutQueues(tasks, qs, 2, 2) == qs && Victim(qs, 2) == 0
      && Choice(tasks, qs, 2) == NONE && AfterPick(tasks, qs, 2) == [[], [5], [], []] && Overlooks(tasks, qs, 2)
  {
    var qs := [[4], [5], [], []];
    assert IsVictim(qs, 2, 0);
    OneVictim(qs, 2, 0, Victim(qs, 2));
    StaleMeans(tasks, qs[2]);
    StaleMeans(tasks, qs[0]);
    assert 5 in qs[1] && IsReady(tasks, 5);
    OverlooksExact(tasks, qs, 2);
  }

  // ---------------------------------------------------------------- reviving the dead

  /** Task 4 and its child 5, with these states and processors of task 4. */
  ghost predicate Family(s: Scheduler, queues: seq<seq<nat>>, current: seq<nat>, state: TaskState, cpu: int)
    reads s
  {
    && Scene(s, queues, current) && s.tasks[5].parent == 4 && !s.tasks[5].state.Zombie?
    && s.tasks[4].state == state && s.tasks[4].cpu == cpu && !s.tasks[4].kill && !s.tasks[4].wake
  }

  /** A switch that brings in task 4 from the processor's own queue. */
  method BringIn(s: Scheduler, cpu: nat, ghost queues: seq<seq<nat>>, ghost current: seq<nat>, ghost state: TaskState, ghost on: int)
    requires Family(s, queues, current, state, on) && cpu < CPUS && |current| == CPUS && |queues| == CPUS
    requires (current[cpu] == cpu && state == Ready && queues[cpu] == [4]) || (current[cpu] == 4 && state == Running && queues[cpu] == [])
    requires s.tasks[5].state.Ready?
    modifies s
    ensures Family(s, queues[cpu := []], current[cpu := 4], Running, cpu) && s.tasks[5].state.Ready?
    ensures s.nextEnqueue == old(s.nextEnqueue)
  {
    ghost var tasks := s.tasks;
    FourFirst(tasks, queues, cpu, current[cpu]);
    s.Schedule(cpu);
    Recast(OutTasks(tasks, current[cpu]), s.tasks);
    assert Core(s.tasks[5]) == Core(tasks[5]);
  }

  /** Processor 0 parks task 4; before it has switched away, another wakes the task: it joins the third queue. */
  method ParkAndWake(s: Scheduler)
    requires Family(s, [[], [5], [], []], [4, 1, 2, 3], Running, 0) && s.tasks[5].state.Ready? && s.nextEnqueue == 2
    modifies s
    ensures Family(s, [[], [5], [4], []], [4, 1, 2, 3], Ready, 0) && s.tasks[5].state.Ready?
  {
    ghost var tasks := s.tasks;
    var blocked := s.Park(4);
    assert s.tasks == tasks[4 := tasks[4].(state := Blocked)];
    Recast(tasks, s.tasks);
    WakeFour(s);
  }

  method WakeFour(s: Scheduler)
    requires Family(s, [[], [5], [], []], [4, 1, 2, 3], Blocked, 0) && s.tasks[5].state.Ready? && s.nextEnqueue == 2
    modifies s
    ensures Family(s, [[], [5], [4], []], [4, 1, 2, 3], Ready, 0) && s.tasks[5].state.Ready?
  {
    ghost var tasks := s.tasks;
    NotQueued(s);
    s.Unpark(4);
    SpreadTo([[], [5], [], []], 2, 4, s.queues, s.nextEnqueue, 2);
    assert [] + [4] == [4];
    assert s.queues == [[], [5], [4], []];
    OneWoken(tasks, s.tasks);
  }

  lemma OneWoken(tasks: seq<Task>, tasks': seq<Task>)
    requires Cast(tasks) && OnlyTask(tasks, tasks', 4) && Core(tasks'[4]) == Core(tasks[4]).(state := Ready)
    ensures Cast(tasks') && Marks(tasks'[5]) == Marks(tasks[5])
  {
    forall u | 0 <= u < |tasks|
      ensures tasks'[u].used == tasks[u].used && tasks'[u].id == tasks[u].id && tasks'[u].parent == tasks[u].parent
    {
      assert u != 4 ==> Marks(tasks'[u]) == Marks(tasks[u]);
    }
    Recast(tasks, tasks');
  }

  lemma NotQueued(s: Scheduler)
    requires s.Valid() && s.queues == [[], [5], [], []]
    ensures !s.tasks[4].onRq
  {
    assert Placed(s.tasks, s.queues, 4);
  }

  /** Task 4, running on processors 0 and 2 at once, is killed, and processor 0 lets it go. */
  method KillAndLeave(s: Scheduler)
    requires Family(s, [[], [5], [], []], [4, 1, 4, 3], Running, 0) && s.tasks[5].state.Ready?
    modifies s
    ensures s.Valid() && Cast(s.tasks) && s.current[2] == 4 && s.tasks[4].state.Dead? && s.tasks[4].cpu == NONE
    ensures s.tasks[5].parent == 4 && !s.tasks[5].state.Zombie?
  {
    ghost var tasks := s.tasks;
    var killed := s.Kill(1, 4);
    assert killed by {
      assert s.tasks[4].used && s.tasks[4].id == 4;
    }
    ghost var doomed := s.tasks;
    KilledFour(tasks, doomed);
    assert doomed == tasks[4 := tasks[4].(kill := true)];
    s.Schedule(0);
    FiveStolen(doomed);
    Recast(OutTasks(doomed, 4), s.tasks);
  }

  lemma FiveStolen(tasks: seq<Task>)
    requires Cast(tasks) && tasks[4].kill && tasks[5].state.Ready?
    ensures var ts, qs := OutTasks(tasks, 4), OutQueues(tasks, [[], [5], [], []], 4, 0);
      Cast(ts) && ts[4].state.Dead? && Choice(ts, qs, 0) == 5 && ts[5] == tasks[5]
  {
    var ts, qs := OutTasks(tasks, 4), [[], [5], [], []];
    assert OutQueues(tasks, qs, 4, 0) == qs;
    assert IsVictim(qs, 0, 1);
    OneVictim(qs, 0, 1, Victim(qs, 0));
    assert IsReady(ts, [5][0]);
    assert FirstReady(ts, [5]) == 0;
  }

  /**
   Task 4 waits for its child after it was killed: it is dead before the call and blocked
   after it, ready to be woken.
   */
  method DeadRevived() returns (s: Scheduler, r: Waited, ghost before: seq<Task>)
    ensures fresh(s) && |s.current| == CPUS && s.current[2] == 4 && r.Sleeps? && |before| == MAX_TASKS
    ensures Undead(before[4], 4) && s.tasks == before[4 := before[4].(state := Blocked)]
    ensures !GoneStays(before, s.tasks)
  {
    s := DoubleRun();
    KillAndLeave(s);
    before := s.tasks;
    OnlyChild(before);
    r := s.Wait(2, -1);
  }

  /**
   Task 4 is killed, leaves processor 0, is taken by the reaper, and then exits on processor 2.
   It is dead again while its identifier is already on the reaper's record: its state no
   longer says that the reaper has it, only its absence from the list the reaper walks.
   */
  method ExitsWhileReaped() returns (s: Scheduler)
    ensures fresh(s) && !s.Valid() && |s.tasks| == MAX_TASKS && s.tasks[4].used && s.tasks[4].id == 4
    ensures 4 in s.reaped && (s.tasks[4].state.Dead? || s.tasks[4].state.Zombie?)
  {
    s := DoubleRun();
    KillAndLeave(s);
    s.Detach(4);
    s.Exit(2);
  }

  /** Processors 0 and 2 both come to run task 4. */
  method DoubleRun() returns (s: Scheduler)
    ensures fresh(s) && Family(s, [[], [5], [], []], [4, 1, 4, 3], Running, 0) && s.tasks[5].state.Ready?
  {
    s := Births();
    s.SetParent(5, 4);
    BringIn(s, 0, [[4], [5], [], []], [0, 1, 2, 3], Ready, NONE);
    assert [[4], [5], [], []][0 := []] == [[], [5], [], []] && [0, 1, 2, 3][0 := 4] == [4, 1, 2, 3];
    ParkAndWake(s);
    BringIn(s, 2, [[], [5], [4], []], [4, 1, 2, 3], Ready, 0);
    assert [[], [5], [4], []][2 := []] == [[], [5], [], []] && [4, 1, 2, 3][2 := 4] == [4, 1, 4, 3];
    BringIn(s, 0, [[], [5], [], []], [4, 1, 4, 3], Running, 2);
    assert [[], [5], [], []][0 := []] == [[], [5], [], []] && [4, 1, 4, 3][0 := 4] == [4, 1, 4, 3];
  }

  lemma OnlyChild(tasks: seq<Task>)
    requires Cast(tasks) && tasks[5].parent == 4 && !tasks[5].state.Zombie?
    ensures ChildOf(tasks[5], 4, -1)
    ensures forall t :: 0 <= t < MAX_TASKS && t != 4 && ChildOf(tasks[t], 4, -1) ==> t == 5
  {
  }

  lemma FourFirst(tasks: seq<Task>, queues: seq<seq<nat>>, cpu: nat, p: nat)
    requires Cast(tasks) && cpu < CPUS && |queues| == CPUS && !tasks[4].kill
    requires (p == cpu && tasks[4].state.Ready? && queues[cpu] == [4]) || (p == 4 && tasks[4].state.Running? && queues[cpu] == [])
    ensures var ts, qs := OutTasks(tasks, p), OutQueues(tasks, queues, p, cpu);
      && Cast(ts) && qs == queues[cpu := [4]] && Choice(ts, qs, cpu) == 4 && AfterPick(ts, qs, cpu) == queues[cpu := []]
      && Core(ts[5]) == Core(tasks[5]) && !ts[4].kill && ts[4].wake == tasks[4].wake
  {
    var ts, qs := OutTasks(tasks, p), OutQueues(tasks, queues, p, cpu);
    assert [] + [4] == [4];
    assert qs == queues[cpu := [4]];
    assert IsReady(ts, [4][0]);
    assert FirstReady(ts, [4]) == 0;
  }

  lemma Recast(tasks: seq<Task>, tasks': seq<Task>)
    requires Cast(tasks) && |tasks'| == |tasks|
    requires forall u :: 0 <= u < |tasks| ==> tasks'[u].used == tasks[u].used && tasks'[u].id == tasks[u].id && tasks'[u].parent == tasks[u].parent
    ensures Cast(tasks')
  {
  }

  /**
   From any state: a task that is killed while processor `c` runs it is gone once `c` has
   switched, and runs there no longer.
   */
  method KillAndSwitch(s: Scheduler, cpu: nat, c: nat, id: nat) returns (killed: bool)
    requires s.Valid() && cpu < CPUS && c < CPUS && s.current[c] >= CPUS && s.tasks[s.current[c]].used && s.tasks[s.current[c]].id == id
    modifies s
    ensures s.Valid() && |s.tasks| == MAX_TASKS
    ensures killed <==> old(s.current)[c] != old(s.current)[cpu] && !Gone(old(s.tasks)[old(s.current)[c]].state)
    ensures killed ==> s.current[c] != old(s.current)[c] && Gone(s.tasks[old(s.current)[c]].state)
  {
    ghost var t := s.current[c];
    assert Placed(s.tasks, s.queues, t);
    killed := s.Kill(cpu, id);
    if killed {
      assert forall u :: CPUS <= u < MAX_TASKS && KilledAt(old(s.tasks), s.tasks, u, id) ==> u == t;
      s.Schedule(c);
    }
  }
}
