/**
 Mutexes and conditions as the code runs them (`mutex.c`, `condvar.c`): locked flags and
 owners, the intrusive wait queues, and `sched_park_task` and `sched_unpark_task` of the
 scheduler.  Every region does to these what the steps of `Sync` do to its state, so what
 is proved there over every interleaving holds of the scheduler's tasks.
 */
module SyncCode {
  import opened Sync
  import H = Scheduler
  import Q = WaitQueue
  import R = RunQueue
  import P = Picking

  datatype MutexWord = MutexWord(locked: bool, owner: int)

  /** Where the wait queue embedded in each mutex and each condition is. */
  datatype Layout = Layout(ofMutex: map<nat, nat>, ofCond: map<nat, nat>)

  /** No two objects share a queue. */
  ghost predicate Separate(l: Layout) {
    (forall m :: m in l.ofMutex ==> MutexAlone(l, m)) && (forall c :: c in l.ofCond ==> CondAlone(l, c))
  }

  ghost predicate MutexAlone(l: Layout, m: nat)
    requires m in l.ofMutex
  {
    && (forall k :: k in l.ofMutex && k != m ==> l.ofMutex[k] != l.ofMutex[m])
    && (forall c :: c in l.ofCond ==> l.ofCond[c] != l.ofMutex[m])
  }

  ghost predicate CondAlone(l: Layout, c: nat)
    requires c in l.ofCond
  {
    && (forall k :: k in l.ofCond && k != c ==> l.ofCond[k] != l.ofCond[c])
    && (forall m :: m in l.ofMutex ==> l.ofMutex[m] != l.ofCond[c])
  }

  /** The scheduler's view of a task: a token is its pending wake-up, parked is blocked. */
  ghost predicate TaskAgrees(s: State, tasks: seq<R.Task>, t: nat) {
    && t in s.phase && t < |tasks| && tasks[t].used && (tasks[t].id < R.CPUS <==> t < IDLE_TASKS)
    && !H.Gone(tasks[t].state) && !tasks[t].kill
    && (tasks[t].wake <==> t in s.tokens) && (tasks[t].state.Blocked? <==> s.phase[t].Parked?)
  }

  ghost predicate TasksAgree(s: State, tasks: seq<R.Task>) {
    |tasks| == R.MAX_TASKS && forall t :: t in s.phase ==> TaskAgrees(s, tasks, t)
  }

  ghost predicate MutexAgrees(l: Layout, s: State, words: map<nat, MutexWord>, lists: map<nat, seq<nat>>, m: nat) {
    && m in s.mutexes && m in words && words[m] == MutexWord(s.mutexes[m].locked, s.mutexes[m].owner)
    && m in l.ofMutex && l.ofMutex[m] in lists && lists[l.ofMutex[m]] == s.mutexes[m].waiters
  }

  ghost predicate CondAgrees(l: Layout, s: State, holders: map<nat, int>, lists: map<nat, seq<nat>>, c: nat) {
    && c in s.conds && c in holders && holders[c] == s.conds[c].holder
    && c in l.ofCond && l.ofCond[c] in lists && lists[l.ofCond[c]] == s.conds[c].waiters
  }

  ghost predicate QueuesAgree(l: Layout, s: State, words: map<nat, MutexWord>, holders: map<nat, int>, lists: map<nat, seq<nat>>) {
    && words.Keys == s.mutexes.Keys == l.ofMutex.Keys && holders.Keys == s.conds.Keys == l.ofCond.Keys
    && (forall m :: m in words ==> MutexAgrees(l, s, words, lists, m))
    && (forall c :: c in holders ==> CondAgrees(l, s, holders, lists, c))
    && lists.Keys == l.ofMutex.Values + l.ofCond.Values
  }

  /** The invariant of `Sync`, sealed: most proofs only pass it on. */
  ghost predicate Sealed(n: nat, s: State)
    decreases n
  {
    if n == 0 then Inv(s) else Sealed(n - 1, s)
  }

  lemma {:induction false} Unseal(n: nat, s: State)
    ensures Sealed(n, s) <==> Inv(s)
  {
    if n > 0 {
      Unseal(n - 1, s);
    }
  }

  lemma StepSealed(n: nat, s: State, a: Action, k: nat)
    requires Sealed(n, s) && Proper(s, a)
    ensures Sealed(k, Next(s, a))
  {
    Unseal(n, s);
    StepInv(s, a);
    Unseal(k, Next(s, a));
  }

  /** A task outside the waiting functions is in no queue. */
  lemma InNoQueue(n: nat, s: State, t: nat)
    requires Sealed(n, s) && t in s.phase && (s.phase[t].Free? || s.phase[t].Locks?)
    ensures forall m :: m in s.mutexes ==> t !in s.mutexes[m].waiters
    ensures forall c :: c in s.conds ==> t !in s.conds[c].waiters
  {
    Unseal(n, s);
    forall m | m in s.mutexes ensures t !in s.mutexes[m].waiters {
      assert MutexOk(s, m);
    }
    forall c | c in s.conds ensures t !in s.conds[c].waiters {
      assert CondOk(s, c);
    }
  }

  lemma InNoList(l: Layout, s: State, words: map<nat, MutexWord>, holders: map<nat, int>, lists: map<nat, seq<nat>>, t: nat)
    requires QueuesAgree(l, s, words, holders, lists)
    requires forall m :: m in s.mutexes ==> t !in s.mutexes[m].waiters
    requires forall c :: c in s.conds ==> t !in s.conds[c].waiters
    ensures forall q :: q in lists ==> t !in lists[q]
  {
    forall q | q in lists ensures t !in lists[q] {
      if q in l.ofMutex.Values {
        var m :| m in l.ofMutex && l.ofMutex[m] == q;
        assert MutexAgrees(l, s, words, lists, m);
      } else {
        var c :| c in l.ofCond && l.ofCond[c] == q;
        assert CondAgrees(l, s, holders, lists, c);
      }
    }
  }

  /** One mutex changed, with its word and its queue. */
  lemma MutexMoved(l: Layout, s: State, s': State, words: map<nat, MutexWord>, holders: map<nat, int>, lists: map<nat, seq<nat>>, m: nat, x: Mutex)
    requires QueuesAgree(l, s, words, holders, lists) && m in s.mutexes && MutexAlone(l, m) && s'.mutexes == s.mutexes[m := x] && s'.conds == s.conds
    ensures QueuesAgree(l, s', words[m := MutexWord(x.locked, x.owner)], holders, lists[l.ofMutex[m] := x.waiters])
  {
    var words', lists' := words[m := MutexWord(x.locked, x.owner)], lists[l.ofMutex[m] := x.waiters];
    forall k | k in words' ensures MutexAgrees(l, s', words', lists', k) {
      if k != m {
        MutexStays(l, s, s', words, words', lists, lists', k);
      }
    }
    forall c | c in holders ensures CondAgrees(l, s', holders, lists', c) {
      assert CondAgrees(l, s, holders, lists, c);
    }
    assert lists'.Keys == lists.Keys;
  }

  lemma MutexStays(l: Layout, s: State, s': State, words: map<nat, MutexWord>, words': map<nat, MutexWord>,
                   lists: map<nat, seq<nat>>, lists': map<nat, seq<nat>>, k: nat)
    requires MutexAgrees(l, s, words, lists, k) && k in s'.mutexes && s'.mutexes[k] == s.mutexes[k]
    requires k in words' && words'[k] == words[k] && l.ofMutex[k] in lists' && lists'[l.ofMutex[k]] == lists[l.ofMutex[k]]
    ensures MutexAgrees(l, s', words', lists', k)
  {
  }

  /** One condition changed, with its lock and its queue. */
  lemma CondMoved(l: Layout, s: State, s': State, words: map<nat, MutexWord>, holders: map<nat, int>, lists: map<nat, seq<nat>>, c: nat, x: Cond)
    requires QueuesAgree(l, s, words, holders, lists) && c in s.conds && CondAlone(l, c) && s'.conds == s.conds[c := x] && s'.mutexes == s.mutexes
    ensures QueuesAgree(l, s', words, holders[c := x.holder], lists[l.ofCond[c] := x.waiters])
  {
    var holders', lists' := holders[c := x.holder], lists[l.ofCond[c] := x.waiters];
    forall k | k in words ensures MutexAgrees(l, s', words, lists', k) {
      assert MutexAgrees(l, s, words, lists, k);
    }
    forall k | k in holders' ensures CondAgrees(l, s', holders', lists', k) {
      assert k in holders && CondAgrees(l, s, holders, lists, k);
    }
    assert lists'.Keys == lists.Keys;
  }

  /** The tasks agree as long as parked phases and tokens stay. */
  lemma TasksStay(s: State, s': State, tasks: seq<R.Task>)
    requires TasksAgree(s, tasks) && s'.phase.Keys == s.phase.Keys && s'.tokens == s.tokens
    requires forall t :: t in s.phase ==> (s'.phase[t].Parked? <==> s.phase[t].Parked?)
    ensures TasksAgree(s', tasks)
  {
    forall t | t in s'.phase ensures TaskAgrees(s', tasks, t) {
      assert TaskAgrees(s, tasks, t);
    }
  }

  /** The scheduler changed one task as the step did. */
  lemma TaskMoved(s: State, s': State, tasks: seq<R.Task>, tasks': seq<R.Task>, n: nat)
    requires TasksAgree(s, tasks) && |tasks'| == |tasks| && s'.phase.Keys == s.phase.Keys
    requires forall t :: t in s.phase && t != n ==> H.Core(tasks'[t]) == H.Core(tasks[t])
    requires forall t :: t in s.phase && t != n ==> (s'.phase[t].Parked? <==> s.phase[t].Parked?) && (t in s'.tokens <==> t in s.tokens)
    requires n in s.phase ==> TaskAgrees(s', tasks', n)
    ensures TasksAgree(s', tasks')
  {
    forall t | t in s'.phase ensures TaskAgrees(s', tasks', t) {
      if t != n {
        assert TaskAgrees(s, tasks, t);
        assert H.Core(tasks'[t]) == H.Core(tasks[t]);
      }
    }
  }

  // ---------------------------------------------------------------- the coupling

  /** What the code holds: where each task is, the mutexes, who holds each condition's lock, the queues and the task slots. */
  datatype View = View(pc: map<nat, Phase>, words: map<nat, MutexWord>, holders: map<nat, int>, lists: map<nat, seq<nat>>, tasks: seq<R.Task>)

  /** The code's state is the abstract one, sealed: the methods below only pass it on. */
  ghost predicate Coupled(n: nat, l: Layout, s: State, v: View)
    decreases n
  {
    if n == 0 then Separate(l) && Sealed(|v.pc|, s) && v.pc == s.phase && QueuesAgree(l, s, v.words, v.holders, v.lists) && TasksAgree(s, v.tasks)
    else Coupled(n - 1, l, s, v)
  }

  lemma {:induction false} Uncouple(n: nat, l: Layout, s: State, v: View)
    ensures Coupled(n, l, s, v) <==> Coupled(0, l, s, v)
  {
    if n > 0 {
      Uncouple(n - 1, l, s, v);
    }
  }

  /** The phase of one task changed and neither it nor the old one is parked. */
  lemma PhaseMoved(s: State, s': State, tasks: seq<R.Task>, t: nat)
    requires TasksAgree(s, tasks) && t in s.phase && s'.tokens == s.tokens && t in s'.phase && s'.phase == s.phase[t := s'.phase[t]]
    requires !s.phase[t].Parked? && !s'.phase[t].Parked?
    ensures TasksAgree(s', tasks)
  {
    TasksStay(s, s', tasks);
  }

  // ---------------------------------------------------------------- what each region does

  /** `mutex_lock` under the mutex's lock. */
  function LockView(l: Layout, v: View, t: nat, m: nat): View
    requires m in v.words && m in l.ofMutex && l.ofMutex[m] in v.lists
  {
    var q := l.ofMutex[m];
    if !v.words[m].locked then v.(words := v.words[m := MutexWord(true, t)], pc := v.pc[t := Free])
    else v.(lists := v.lists[q := v.lists[q] + [t]], pc := v.pc[t := Waits(OnMutex(m))])
  }

  lemma LockMaps(l: Layout, s: State, v: View, t: nat, m: nat)
    requires MutexAgrees(l, s, v.words, v.lists, m) && t !in s.mutexes[m].waiters
    ensures var x, v' := Locked(s, t, m).mutexes[m], LockView(l, v, t, m);
      && v'.words == v.words[m := MutexWord(x.locked, x.owner)] && v'.lists == v.lists[l.ofMutex[m] := x.waiters] && v'.holders == v.holders
      && Locked(s, t, m).mutexes == s.mutexes[m := x] && Locked(s, t, m).conds == s.conds
  {
  }

  lemma LockQueues(l: Layout, s: State, v: View, t: nat, m: nat)
    requires QueuesAgree(l, s, v.words, v.holders, v.lists) && m in v.words && MutexAlone(l, m) && MutexAgrees(l, s, v.words, v.lists, m)
    requires t !in s.mutexes[m].waiters
    ensures var v' := LockView(l, v, t, m); QueuesAgree(l, Locked(s, t, m), v'.words, v'.holders, v'.lists)
  {
    LockMaps(l, s, v, t, m);
    MutexMoved(l, s, Locked(s, t, m), v.words, v.holders, v.lists, m, Locked(s, t, m).mutexes[m]);
  }

  /** A task that is about to queue is in no queue. */
  lemma Outside(n: nat, l: Layout, s: State, v: View, t: nat)
    requires Coupled(n, l, s, v) && t in v.pc && (v.pc[t].Free? || v.pc[t].Locks?)
    ensures forall q :: q in v.lists ==> t !in v.lists[q]
    ensures forall m :: m in s.mutexes ==> t !in s.mutexes[m].waiters
    ensures forall c :: c in s.conds ==> t !in s.conds[c].waiters
  {
    Uncouple(n, l, s, v);
    InNoQueue(|v.pc|, s, t);
    InNoList(l, s, v.words, v.holders, v.lists, t);
  }

  lemma MutexThere(n: nat, l: Layout, s: State, v: View, m: nat)
    requires Coupled(n, l, s, v) && m in v.words
    ensures MutexAgrees(l, s, v.words, v.lists, m) && MutexAlone(l, m)
  {
    Uncouple(n, l, s, v);
  }

  /** The state is coupled if its parts are. */
  lemma Recouple(n: nat, l: Layout, s: State, v: View, s': State, v': View, a: Action)
    requires Coupled(n, l, s, v) && s' == Next(s, a) && Proper(s, a) && v'.pc == s'.phase
    requires QueuesAgree(l, s, v.words, v.holders, v.lists) ==> QueuesAgree(l, s', v'.words, v'.holders, v'.lists)
    requires TasksAgree(s, v.tasks) ==> TasksAgree(s', v'.tasks)
    ensures Coupled(n, l, s', v')
  {
    Uncouple(n, l, s, v);
    StepSealed(|v.pc|, s, a, |v'.pc|);
    Uncouple(n, l, s', v');
  }

  lemma LockPhase(s: State, v: View, l: Layout, t: nat, m: nat)
    requires t in s.phase && v.pc == s.phase && MutexAgrees(l, s, v.words, v.lists, m) && t !in s.mutexes[m].waiters
    requires s.phase[t].Free? || s.phase[t] == Locks(m)
    ensures var s' := Next(s, Lock(t, m));
      && s' == Locked(s, t, m) && t in s'.phase && s'.phase == LockView(l, v, t, m).pc == s.phase[t := s'.phase[t]]
      && s'.tokens == s.tokens && !s'.phase[t].Parked?
  {
  }

  lemma LockCoupled(n: nat, l: Layout, s: State, v: View, t: nat, m: nat)
    requires Coupled(n, l, s, v) && v.pc == s.phase && t in v.pc && m in v.words && (v.pc[t].Free? || v.pc[t] == Locks(m)) && Proper(s, Lock(t, m))
    ensures m in l.ofMutex && l.ofMutex[m] in v.lists
    ensures Coupled(n, l, Next(s, Lock(t, m)), LockView(l, v, t, m))
  {
    Outside(n, l, s, v, t);
    MutexThere(n, l, s, v, m);
    LockPhase(s, v, l, t, m);
    var s', v' := Next(s, Lock(t, m)), LockView(l, v, t, m);
    if QueuesAgree(l, s, v.words, v.holders, v.lists) {
      LockQueues(l, s, v, t, m);
    }
    if TasksAgree(s, v.tasks) {
      PhaseMoved(s, s', v.tasks, t);
    }
    Recouple(n, l, s, v, s', v', Lock(t, m));
  }

  /** `mutex_unlock` under the mutex's lock; `p` is where the caller is afterwards. */
  function HandView(l: Layout, v: View, t: nat, m: nat, p: Phase): View
    requires m in v.words && m in l.ofMutex && l.ofMutex[m] in v.lists
  {
    var q := l.ofMutex[m];
    if v.lists[q] == [] then v.(words := v.words[m := MutexWord(false, NONE)], pc := v.pc[t := p])
    else v.(words := v.words[m := v.words[m].(owner := v.lists[q][0])], lists := v.lists[q := v.lists[q][1..]], pc := v.pc[t := p])
  }

  lemma HandMaps(l: Layout, s: State, v: View, t: nat, m: nat, p: Phase)
    requires MutexAgrees(l, s, v.words, v.lists, m)
    ensures var x, v' := Passed(s.mutexes[m]), HandView(l, v, t, m, p);
      && v'.words == v.words[m := MutexWord(x.locked, x.owner)] && v'.lists == v.lists[l.ofMutex[m] := x.waiters] && v'.holders == v.holders
      && Handed(s, t, m, p).mutexes == s.mutexes[m := x] && Handed(s, t, m, p).conds == s.conds
  {
  }

  lemma HandQueuesAgree(l: Layout, s: State, v: View, t: nat, m: nat, p: Phase)
    requires QueuesAgree(l, s, v.words, v.holders, v.lists) && m in v.words && MutexAlone(l, m) && MutexAgrees(l, s, v.words, v.lists, m)
    ensures var v' := HandView(l, v, t, m, p); QueuesAgree(l, Handed(s, t, m, p), v'.words, v'.holders, v'.lists)
  {
    HandMaps(l, s, v, t, m, p);
    MutexMoved(l, s, Handed(s, t, m, p), v.words, v.holders, v.lists, m, Passed(s.mutexes[m]));
  }

  /** The action of a hand-over: `mutex_unlock` itself, or the second region of `condvar_wait`. */
  lemma HandCoupled(n: nat, l: Layout, s: State, v: View, t: nat, m: nat, p: Phase, a: Action)
    requires Coupled(n, l, s, v) && v.pc == s.phase && t in v.pc && m in v.words && !v.pc[t].Parked? && !p.Parked?
    requires m in s.mutexes && Next(s, a) == Handed(s, t, m, p) && Proper(s, a)
    ensures m in l.ofMutex && l.ofMutex[m] in v.lists
    ensures Coupled(n, l, Next(s, a), HandView(l, v, t, m, p))
  {
    MutexThere(n, l, s, v, m);
    var s', v' := Next(s, a), HandView(l, v, t, m, p);
    if QueuesAgree(l, s, v.words, v.holders, v.lists) {
      HandQueuesAgree(l, s, v, t, m, p);
    }
    if TasksAgree(s, v.tasks) {
      PhaseMoved(s, s', v.tasks, t);
    }
    Recouple(n, l, s, v, s', v', a);
  }

  lemma CondThere(n: nat, l: Layout, s: State, v: View, c: nat)
    requires Coupled(n, l, s, v) && c in v.holders
    ensures CondAgrees(l, s, v.holders, v.lists, c) && CondAlone(l, c)
  {
    Uncouple(n, l, s, v);
  }

  /** A region of a condition: its lock, its queue, and the caller's place. */
  function CondView(l: Layout, v: View, t: nat, c: nat, holder: int, list: seq<nat>, p: Phase): View
    requires c in v.holders && c in l.ofCond
  {
    v.(holders := v.holders[c := holder], lists := v.lists[l.ofCond[c] := list], pc := v.pc[t := p])
  }

  lemma CondCoupled(n: nat, l: Layout, s: State, v: View, t: nat, c: nat, x: Cond, p: Phase, a: Action)
    requires Coupled(n, l, s, v) && v.pc == s.phase && t in v.pc && c in v.holders && !v.pc[t].Parked? && !p.Parked? && Proper(s, a)
    requires c in s.conds && Next(s, a).conds == s.conds[c := x] && Next(s, a).mutexes == s.mutexes && Next(s, a).tokens == s.tokens
    requires Next(s, a).phase == s.phase[t := p]
    ensures c in l.ofCond && Coupled(n, l, Next(s, a), CondView(l, v, t, c, x.holder, x.waiters, p))
  {
    CondThere(n, l, s, v, c);
    var s', v' := Next(s, a), CondView(l, v, t, c, x.holder, x.waiters, p);
    if QueuesAgree(l, s, v.words, v.holders, v.lists) {
      CondMoved(l, s, s', v.words, v.holders, v.lists, c, x);
    }
    if TasksAgree(s, v.tasks) {
      PhaseMoved(s, s', v.tasks, t);
    }
    Recouple(n, l, s, v, s', v', a);
  }

  /** A step that touches no queue: only the scheduler's tasks and the caller's place. */
  lemma QuietCoupled(n: nat, l: Layout, s: State, v: View, tasks: seq<R.Task>, a: Action)
    requires Coupled(n, l, s, v) && Proper(s, a) && Next(s, a).mutexes == s.mutexes && Next(s, a).conds == s.conds
    requires TasksAgree(s, v.tasks) ==> TasksAgree(Next(s, a), tasks)
    ensures Coupled(n, l, Next(s, a), v.(pc := Next(s, a).phase, tasks := tasks))
  {
    var s', v' := Next(s, a), v.(pc := Next(s, a).phase, tasks := tasks);
    if QueuesAgree(l, s, v.words, v.holders, v.lists) {
      SameQueues(l, s, s', v.words, v.holders, v.lists);
    }
    Recouple(n, l, s, v, s', v', a);
  }

  lemma SameQueues(l: Layout, s: State, s': State, words: map<nat, MutexWord>, holders: map<nat, int>, lists: map<nat, seq<nat>>)
    requires QueuesAgree(l, s, words, holders, lists) && s'.mutexes == s.mutexes && s'.conds == s.conds
    ensures QueuesAgree(l, s', words, holders, lists)
  {
    forall m | m in words ensures MutexAgrees(l, s', words, lists, m) {
      assert MutexAgrees(l, s, words, lists, m);
    }
    forall c | c in holders ensures CondAgrees(l, s', holders, lists, c) {
      assert CondAgrees(l, s, holders, lists, c);
    }
  }

  // ---------------------------------------------------------------- parking and unparking

  /** `sched_park_task` does to the scheduler's task what the step does to the phase and the token. */
  lemma ParkAgrees(s: State, tasks: seq<R.Task>, t: nat)
    requires TasksAgree(s, tasks) && t in s.phase && s.phase[t].Waits?
    ensures t < |tasks|
    ensures TasksAgree(Next(s, Park(t)), if H.CanPark(tasks[t]) then tasks[t := H.Parked(tasks[t])] else tasks)
  {
    assert TaskAgrees(s, tasks, t);
    var s' := Next(s, Park(t));
    var tasks' := if H.CanPark(tasks[t]) then tasks[t := H.Parked(tasks[t])] else tasks;
    TaskMoved(s, s', tasks, tasks', t);
  }

  lemma TaskThere(n: nat, l: Layout, s: State, v: View, t: nat)
    requires Coupled(n, l, s, v) && t in s.phase
    ensures TaskAgrees(s, v.tasks, t)
  {
    Uncouple(n, l, s, v);
  }

  lemma ParkCoupled(n: nat, l: Layout, s: State, v: View, t: nat)
    requires Coupled(n, l, s, v) && t in s.phase && s.phase[t].Waits?
    ensures t < |v.tasks|
    ensures var tasks := if H.CanPark(v.tasks[t]) then v.tasks[t := H.Parked(v.tasks[t])] else v.tasks;
      Coupled(n, l, Next(s, Park(t)), v.(pc := Next(s, Park(t)).phase, tasks := tasks))
    ensures H.CanPark(v.tasks[t]) && !v.tasks[t].wake <==> Next(s, Park(t)).phase[t].Parked?
  {
    TaskThere(n, l, s, v, t);
    if TasksAgree(s, v.tasks) {
      ParkAgrees(s, v.tasks, t);
    }
    QuietCoupled(n, l, s, v, if H.CanPark(v.tasks[t]) then v.tasks[t := H.Parked(v.tasks[t])] else v.tasks, Park(t));
  }

  /** So does `sched_unpark_task` for the task that is woken. */
  lemma UnparkAgrees(s: State, tasks: seq<R.Task>, tasks': seq<R.Task>, t: nat, n: nat)
    requires TasksAgree(s, tasks) && t in s.phase && n in s.phase && n != t && Owes(s.phase[t]) == n && n >= IDLE_TASKS
    requires |tasks'| == |tasks| && forall u :: u in s.phase && u != n ==> H.Core(tasks'[u]) == H.Core(tasks[u])
    requires tasks[n].state.Blocked? ==> H.Core(tasks'[n]) == H.Core(tasks[n]).(state := R.Ready)
    requires !tasks[n].state.Blocked? ==> tasks'[n] == tasks[n].(wake := true)
    ensures TasksAgree(Next(s, Unpark(t)), tasks')
  {
    assert TaskAgrees(s, tasks, n) && TaskAgrees(s, tasks, t);
    TaskMoved(s, Next(s, Unpark(t)), tasks, tasks', n);
  }

  /** Whoever is owed a wake-up is some other task, alive, and not an idle one. */
  lemma UnparkReady(n: nat, l: Layout, s: State, v: View, t: nat)
    requires Coupled(n, l, s, v) && t in s.phase && Owes(s.phase[t]) != NONE && Owes(s.phase[t]) in s.phase
    ensures Owes(s.phase[t]) != t && Owes(s.phase[t]) >= IDLE_TASKS && TaskAgrees(s, v.tasks, Owes(s.phase[t]))
  {
    TaskThere(n, l, s, v, Owes(s.phase[t]));
    Uncouple(n, l, s, v);
    OwedWaits(|v.pc|, s, t);
  }

  lemma OwedWaits(n: nat, s: State, t: nat)
    requires Sealed(n, s) && t in s.phase && Owes(s.phase[t]) != NONE && Owes(s.phase[t]) in s.phase
    ensures Owes(s.phase[t]) != t && Owes(s.phase[t]) >= IDLE_TASKS
  {
    Unseal(n, s);
    Debt(s, t);
    assert TaskOk(s, Owes(s.phase[t]));
  }

  lemma UnparkCoupled(k: nat, l: Layout, s: State, v: View, tasks: seq<R.Task>, t: nat, n: nat)
    requires Coupled(k, l, s, v) && t in s.phase && n in s.phase && n != t && Owes(s.phase[t]) == n && n >= IDLE_TASKS
    requires |tasks| == |v.tasks| && n < |v.tasks| && forall u :: 0 <= u < |tasks| && u != n ==> H.Core(tasks[u]) == H.Core(v.tasks[u])
    requires v.tasks[n].state.Blocked? ==> H.Core(tasks[n]) == H.Core(v.tasks[n]).(state := R.Ready)
    requires !v.tasks[n].state.Blocked? ==> tasks[n] == v.tasks[n].(wake := true)
    ensures Coupled(k, l, Next(s, Unpark(t)), v.(pc := Next(s, Unpark(t)).phase, tasks := tasks))
  {
    if TasksAgree(s, v.tasks) {
      forall u | u in s.phase && u != n ensures H.Core(tasks[u]) == H.Core(v.tasks[u]) {
        assert TaskAgrees(s, v.tasks, u);
      }
      UnparkAgrees(s, v.tasks, tasks, t, n);
    }
    QuietCoupled(k, l, s, v, tasks, Unpark(t));
  }

  lemma KeysAgree(n: nat, l: Layout, s: State, v: View)
    requires Coupled(n, l, s, v)
    ensures v.words.Keys == s.mutexes.Keys && v.holders.Keys == s.conds.Keys
  {
    Uncouple(n, l, s, v);
  }

  lemma IdleAwake(n: nat, s: State, t: nat)
    requires Sealed(n, s) && t in s.phase && t < IDLE_TASKS
    ensures !s.phase[t].Parked?
  {
    Unseal(n, s);
  }

  /** The task picked is ready, so not parked. */
  lemma PickedReady(tasks: seq<R.Task>, queues: seq<seq<nat>>, cpu: nat)
    requires cpu < |queues| && P.Choice(tasks, queues, cpu) != R.NONE
    ensures var t := P.Choice(tasks, queues, cpu); 0 <= t < |tasks| && tasks[t].state.Ready?
  {
  }

  lemma SwitchAgrees(s: State, tasks: seq<R.Task>, queues: seq<seq<nat>>, p: nat, cpu: nat, tasks': seq<R.Task>, queues': seq<seq<nat>>, next: nat)
    requires TasksAgree(s, tasks) && p < |tasks| && cpu < |queues| && H.Switched(tasks, queues, p, cpu, tasks', queues', next)
    requires cpu < IDLE_TASKS && (cpu in s.phase ==> !s.phase[cpu].Parked?)
    ensures TasksAgree(s, tasks')
  {
    var ts, qs := H.OutTasks(tasks, p), H.OutQueues(tasks, queues, p, cpu);
    if P.Choice(ts, qs, cpu) != R.NONE {
      PickedReady(ts, qs, cpu);
    }
    forall t | t in s.phase ensures TaskAgrees(s, tasks', t) {
      assert TaskAgrees(s, tasks, t);
      assert ts[t] == if t == p then H.OutTask(tasks[t]) else tasks[t];
      assert t != next ==> H.Core(tasks'[t]) == H.Core(ts[t]);
    }
  }

  lemma SwitchCoupled(n: nat, l: Layout, s: State, v: View, queues: seq<seq<nat>>, p: nat, cpu: nat,
                      tasks: seq<R.Task>, queues': seq<seq<nat>>, next: nat)
    requires Coupled(n, l, s, v) && p < |v.tasks| && cpu < |queues| && cpu < IDLE_TASKS
    requires H.Switched(v.tasks, queues, p, cpu, tasks, queues', next)
    ensures Coupled(n, l, s, v.(tasks := tasks))
  {
    Uncouple(n, l, s, v);
    if cpu in s.phase {
      IdleAwake(|v.pc|, s, cpu);
    }
    SwitchAgrees(s, v.tasks, queues, p, cpu, tasks, queues', next);
    Uncouple(n, l, s, v.(tasks := tasks));
  }

  /** A task the scheduler has blocked here is in the queue it waits in, or somebody is about to unpark it; not both. */
  lemma BlockedIsAwaited(n: nat, l: Layout, s: State, v: View, t: nat)
    requires Coupled(n, l, s, v) && t in v.pc && t < |v.tasks| && v.tasks[t].state.Blocked?
    ensures v.pc[t].Parked? && !v.tasks[t].wake
    ensures (exists q :: q in v.lists && t in v.lists[q]) <==> !exists a :: a in v.pc && Owes(v.pc[a]) == t
  {
    Uncouple(n, l, s, v);
    assert TaskAgrees(s, v.tasks, t);
    ParkedAwaited(|v.pc|, s, t);
    var o := s.phase[t].o;
    if InQueue(s, t, o) {
      if o.OnMutex? {
        assert MutexAgrees(l, s, v.words, v.lists, o.m);
      } else {
        assert CondAgrees(l, s, v.holders, v.lists, o.c);
      }
    } else {
      InNoList(l, s, v.words, v.holders, v.lists, t);
    }
  }

  lemma ParkedAwaited(n: nat, s: State, t: nat)
    requires Sealed(n, s) && t in s.phase && s.phase[t].Parked?
    ensures t !in s.tokens && (InQueue(s, t, s.phase[t].o) <==> !exists a :: a in s.phase && Owes(s.phase[a]) == t)
    ensures !InQueue(s, t, s.phase[t].o) ==>
      (forall m :: m in s.mutexes ==> t !in s.mutexes[m].waiters) && (forall c :: c in s.conds ==> t !in s.conds[c].waiters)
  {
    Unseal(n, s);
    NoLostWakeup(s, t);
    assert TaskOk(s, t);
    if !InQueue(s, t, s.phase[t].o) {
      OffQueues(s, t);
    }
  }

  // ---------------------------------------------------------------- the code

  /** The invariants of the scheduler and of the wait queues, sealed too. */
  ghost predicate SchedOk(n: nat, sched: H.Scheduler)
    reads sched
    decreases n
  {
    if n == 0 then sched.Valid() else SchedOk(n - 1, sched)
  }

  lemma {:induction false} UnsealSched(n: nat, sched: H.Scheduler)
    ensures SchedOk(n, sched) <==> sched.Valid()
  {
    if n > 0 {
      UnsealSched(n - 1, sched);
    }
  }

  ghost predicate QueuesOk(n: nat, queues: Q.WaitQueues)
    reads queues
    decreases n
  {
    if n == 0 then queues.Valid() else QueuesOk(n - 1, queues)
  }

  lemma {:induction false} UnsealQueues(n: nat, queues: Q.WaitQueues)
    ensures QueuesOk(n, queues) <==> queues.Valid()
  {
    if n > 0 {
      UnsealQueues(n - 1, queues);
    }
  }

  class Kernel {
    const sched: H.Scheduler
    const queues: Q.WaitQueues
    const layout: Layout
    var pc: map<nat, Phase>              // where each task is in these functions
    var words: map<nat, MutexWord>
    var holders: map<nat, int>           // who holds the lock of each condition
    ghost var s: State

    /** How deep the seals are; the proofs do not know. */
    ghost function Depth(): nat { |layout.ofMutex| }

    ghost function V(): View
      reads this, sched, queues
    {
      View(pc, words, holders, queues.lists, sched.tasks)
    }

    ghost predicate Valid()
      reads this, sched, queues
    {
      && SchedOk(Depth(), sched) && QueuesOk(Depth(), queues) && pc == s.phase
      && Coupled(Depth(), layout, s, V())
    }

    /** Nothing is locked, nobody waits, and the tasks are alive, not blocked and without a pending wake-up. */
    constructor (sched: H.Scheduler, queues: Q.WaitQueues, layout: Layout, tasks: set<nat>)
      requires sched.Valid() && queues.Valid() && Separate(layout)
      requires QueuesAgree(layout, Start(tasks, layout.ofMutex.Keys, layout.ofCond.Keys), FirstWords(layout), FirstHolders(layout), queues.lists)
      requires TasksAgree(Start(tasks, layout.ofMutex.Keys, layout.ofCond.Keys), sched.tasks)
      ensures Valid() && s == Start(tasks, layout.ofMutex.Keys, layout.ofCond.Keys)
      ensures this.sched == sched && this.queues == queues && this.layout == layout
    {
      this.sched, this.queues, this.layout := sched, queues, layout;
      pc, words, holders := FirstPlaces(tasks), FirstWords(layout), FirstHolders(layout);
      s := Start(tasks, layout.ofMutex.Keys, layout.ofCond.Keys);
      UnsealSched(|layout.ofMutex|, sched);
      UnsealQueues(|layout.ofMutex|, queues);
      StartCoupled(|layout.ofMutex|, layout, tasks, queues.lists, sched.tasks);
    }

    /** `wait_queue_enqueue` of a task that is in no queue. */
    method Append(q: nat, t: nat)
      requires QueuesOk(Depth(), queues) && q in queues.lists && forall r :: r in queues.lists ==> t !in queues.lists[r]
      modifies queues
      ensures QueuesOk(Depth(), queues) && queues.lists == old(queues.lists)[q := old(queues.lists)[q] + [t]]
    {
      UnsealQueues(Depth(), queues);
      var ok := queues.Enqueue(q, t);
      UnsealQueues(Depth(), queues);
    }

    /** `wait_queue_dequeue`. */
    method TakeFirst(q: nat) returns (t: int)
      requires QueuesOk(Depth(), queues) && q in queues.lists
      modifies queues
      ensures QueuesOk(Depth(), queues) && t == HeadOf(old(queues.lists)[q])
      ensures queues.lists == if t == NONE then old(queues.lists) else old(queues.lists)[q := old(queues.lists)[q][1..]]
    {
      UnsealQueues(Depth(), queues);
      t := queues.Dequeue(q);
      UnsealQueues(Depth(), queues);
    }

    /** `mutex_lock` up to its park. */
    method LockMutex(t: nat, m: nat)
      requires Valid() && t in pc && m in words && (pc[t].Free? || pc[t] == Locks(m)) && Proper(s, Lock(t, m))
      modifies this, queues
      ensures Valid() && s == Next(old(s), Lock(t, m))
    {
      Outside(Depth(), layout, s, V(), t);
      LockCoupled(Depth(), layout, s, V(), t, m);
      MutexThere(Depth(), layout, s, V(), m);
      s := Next(s, Lock(t, m));
      if !words[m].locked {
        words, pc := words[m := MutexWord(true, t)], pc[t := Free];
      } else {
        Append(layout.ofMutex[m], t);
        pc := pc[t := Waits(OnMutex(m))];
      }
    }

    /** `mutex_unlock` up to its unpark: the next owner is still to be woken. */
    method UnlockMutex(t: nat, m: nat) returns (next: int)
      requires Valid() && t in pc && m in words && pc[t].Free?
      modifies this, queues
      ensures Valid() && s == Next(old(s), Unlock(t, m)) && next == Owes(pc[t])
    {
      MutexThere(Depth(), layout, s, V(), m);
      ghost var p := if s.mutexes[m].waiters == [] then Free else Unlocking(s.mutexes[m].waiters[0]);
      HandCoupled(Depth(), layout, s, V(), t, m, p, Unlock(t, m));
      s := Next(s, Unlock(t, m));
      next := TakeFirst(layout.ofMutex[m]);
      if next == NONE {
        words, pc := words[m := MutexWord(false, NONE)], pc[t := Free];
      } else {
        words, pc := words[m := words[m].(owner := next)], pc[t := Unlocking(next)];
      }
    }

    /** `mutex_trylock`. */
    method TryLockMutex(t: nat, m: nat) returns (ok: bool)
      requires Valid() && t in pc && m in words && pc[t].Free?
      modifies this
      ensures Valid() && s == Next(old(s), TryLock(t, m)) && (ok <==> !old(words)[m].locked)
    {
      MutexThere(Depth(), layout, s, V(), m);
      ok := !words[m].locked;
      if ok {
        LockCoupled(Depth(), layout, s, V(), t, m);
        s := Next(s, Lock(t, m));
        words, pc := words[m := MutexWord(true, t)], pc[t := Free];
      }
    }

    /** `condvar_wait`: the caller queues, under the condition's lock. */
    method EnterWait(t: nat, c: nat, m: nat)
      requires Valid() && t in pc && m in words && c in holders && pc[t].Free? && holders[c] == NONE
      requires Proper(s, Enter(t, c, m))
      modifies this, queues
      ensures Valid() && s == Next(old(s), Enter(t, c, m))
    {
      MutexThere(Depth(), layout, s, V(), m);
      CondThere(Depth(), layout, s, V(), c);
      Outside(Depth(), layout, s, V(), t);
      ghost var x := Cond(t, s.conds[c].waiters + [t]);
      CondCoupled(Depth(), layout, s, V(), t, c, x, Publishing(c, m), Enter(t, c, m));
      s := Next(s, Enter(t, c, m));
      Append(layout.ofCond[c], t);
      holders, pc := holders[c := t], pc[t := Publishing(c, m)];
    }

    /** Then releases the mutex, still under it; a next owner is still to be woken. */
    method ReleaseMutex(t: nat)
      requires Valid() && t in pc && pc[t].Publishing? && pc[t].m in words
      modifies this, queues
      ensures Valid() && s == Next(old(s), Release(t))
    {
      var c, m := pc[t].c, pc[t].m;
      MutexThere(Depth(), layout, s, V(), m);
      HandCoupled(Depth(), layout, s, V(), t, m, Releasing(c, m, HeadOf(s.mutexes[m].waiters)), Release(t));
      s := Next(s, Release(t));
      var next := TakeFirst(layout.ofMutex[m]);
      if next == NONE {
        words := words[m := MutexWord(false, NONE)];
      } else {
        words := words[m := words[m].(owner := next)];
      }
      pc := pc[t := Releasing(c, m, next)];
    }

    /** And gives up the condition's lock, to park. */
    method LeaveWait(t: nat)
      requires Valid() && t in pc && pc[t].Releasing? && pc[t].due == NONE && pc[t].c in holders
      modifies this
      ensures Valid() && s == Next(old(s), Leave(t))
    {
      var c, m := pc[t].c, pc[t].m;
      CondThere(Depth(), layout, s, V(), c);
      CondCoupled(Depth(), layout, s, V(), t, c, s.conds[c].(holder := NONE), Waits(OnCond(c, m)), Leave(t));
      assert queues.lists[layout.ofCond[c] := queues.lists[layout.ofCond[c]]] == queues.lists;
      s := Next(s, Leave(t));
      holders, pc := holders[c := NONE], pc[t := Waits(OnCond(c, m))];
    }

    /** One round of `condvar_signal` or `condvar_broadcast`; the waiter taken is still to be woken. */
    method SignalCond(t: nat, c: nat, all: bool)
      requires Valid() && t in pc && c in holders && holders[c] == NONE && (pc[t].Free? || (all && pc[t] == Broadcasts(c)))
      modifies this, queues
      ensures Valid() && s == Next(old(s), Signal(t, c, all))
    {
      CondThere(Depth(), layout, s, V(), c);
      ghost var x := s.conds[c];
      if x.waiters == [] {
        assert s.conds[c := x] == s.conds;
        CondCoupled(Depth(), layout, s, V(), t, c, x, Free, Signal(t, c, all));
      } else {
        CondCoupled(Depth(), layout, s, V(), t, c, x.(waiters := x.waiters[1..]), Signalling(x.waiters[0], all, c), Signal(t, c, all));
      }
      assert holders[c := holders[c]] == holders && queues.lists[layout.ofCond[c] := queues.lists[layout.ofCond[c]]] == queues.lists;
      s := Next(s, Signal(t, c, all));
      var next := TakeFirst(layout.ofCond[c]);
      pc := pc[t := if next == NONE then Free else Signalling(next, all, c)];
    }

    /** `sched_park_task` by the waiting task itself. */
    method ParkTask(t: nat) returns (blocked: bool)
      requires Valid() && t in pc && pc[t].Waits?
      modifies this, sched
      ensures Valid() && s == Next(old(s), Park(t)) && (blocked <==> pc[t].Parked?)
    {
      ParkCoupled(Depth(), layout, s, V(), t);
      s := Next(s, Park(t));
      blocked := SchedPark(t);
      pc := pc[t := if blocked then Parked(pc[t].o) else Target(pc[t].o)];
    }

    method SchedPark(t: nat) returns (blocked: bool)
      requires SchedOk(Depth(), sched) && t < |sched.tasks|
      modifies sched
      ensures SchedOk(Depth(), sched) && (blocked <==> H.CanPark(old(sched.tasks)[t]) && !old(sched.tasks)[t].wake)
      ensures sched.tasks == if H.CanPark(old(sched.tasks)[t]) then old(sched.tasks)[t := H.Parked(old(sched.tasks)[t])] else old(sched.tasks)
    {
      UnsealSched(Depth(), sched);
      blocked := sched.Park(t);
      UnsealSched(Depth(), sched);
    }

    /** `sched_unpark_task`: the wake-up a task owes. */
    method UnparkTask(t: nat)
      requires Valid() && t in pc && Owes(pc[t]) != NONE && Owes(pc[t]) in pc
      modifies this, sched
      ensures Valid() && s == Next(old(s), Unpark(t))
    {
      ghost var s0, v := s, V();
      var n: nat := Owes(pc[t]);
      UnparkReady(Depth(), layout, s, v, t);
      SchedUnpark(n);
      s := Next(s0, Unpark(t));
      UnparkCoupled(Depth(), layout, s0, v, sched.tasks, t, n);
      pc := pc[t := Paid(pc[t])];
      if pc[n].Parked? {
        pc := pc[n := Woken(pc[n].o)];
      }
    }

    method SchedUnpark(n: nat)
      requires SchedOk(Depth(), sched) && n < |sched.tasks| && !H.Gone(sched.tasks[n].state) && !sched.tasks[n].kill && sched.tasks[n].id >= R.CPUS
      modifies sched
      ensures SchedOk(Depth(), sched) && |sched.tasks| == |old(sched.tasks)|
      ensures forall u :: 0 <= u < |sched.tasks| && u != n ==> H.Core(sched.tasks[u]) == H.Core(old(sched.tasks)[u])
      ensures old(sched.tasks)[n].state.Blocked? ==> H.Core(sched.tasks[n]) == H.Core(old(sched.tasks)[n]).(state := R.Ready)
      ensures !old(sched.tasks)[n].state.Blocked? ==> sched.tasks[n] == old(sched.tasks)[n].(wake := true)
    {
      UnsealSched(Depth(), sched);
      ghost var tasks := sched.tasks;
      sched.Unpark(n);
      UnsealSched(Depth(), sched);
      forall u | 0 <= u < |sched.tasks| && u != n ensures H.Core(sched.tasks[u]) == H.Core(tasks[u]) {
        assert H.Marks(sched.tasks[u]) == H.Marks(tasks[u]);
      }
    }

    /** A woken task goes on. */
    method ResumeTask(t: nat)
      requires Valid() && t in pc && pc[t].Woken?
      modifies this
      ensures Valid() && s == Next(old(s), Resume(t))
    {
      if TasksAgree(s, sched.tasks) {
        PhaseMoved(s, Next(s, Resume(t)), sched.tasks, t);
      }
      QuietCoupled(Depth(), layout, s, V(), sched.tasks, Resume(t));
      s := Next(s, Resume(t));
      pc := pc[t := Target(pc[t].o)];
    }

    /** One region of a mutex, or nothing where the caller is not there. */
    method DoMutex(a: Action)
      requires Valid() && Proper(s, a) && (a.Lock? || a.TryLock? || a.Unlock?)
      modifies this, queues
      ensures Valid() && s == Next(old(s), a)
    {
      KeysAgree(Depth(), layout, s, V());
      var t, m := a.t, a.m;
      if t !in pc || m !in words {
        return;
      }
      MutexThere(Depth(), layout, s, V(), m);
      if a.Lock? && (pc[t].Free? || pc[t] == Locks(m)) {
        LockMutex(t, m);
      } else if a.TryLock? && pc[t].Free? {
        var ok := TryLockMutex(t, m);
      } else if a.Unlock? && pc[t].Free? {
        var next := UnlockMutex(t, m);
      }
    }

    /** One region of a condition. */
    method DoCond(a: Action)
      requires Valid() && Proper(s, a) && (a.Enter? || a.Release? || a.Leave? || a.Signal?)
      modifies this, queues
      ensures Valid() && s == Next(old(s), a)
    {
      KeysAgree(Depth(), layout, s, V());
      var t := a.t;
      if t !in pc {
        return;
      }
      if a.Release? {
        if pc[t].Publishing? && pc[t].m in words {
          ReleaseMutex(t);
        }
      } else if a.Leave? {
        if pc[t].Releasing? && pc[t].due == NONE && pc[t].c in holders {
          LeaveWait(t);
        }
      } else if a.c in holders {
        CondThere(Depth(), layout, s, V(), a.c);
        if a.Signal? {
          if holders[a.c] == NONE && (pc[t].Free? || (a.all && pc[t] == Broadcasts(a.c))) {
            SignalCond(t, a.c, a.all);
          }
        } else if a.m in words && pc[t].Free? {
          MutexThere(Depth(), layout, s, V(), a.m);
          if holders[a.c] == NONE {
            EnterWait(t, a.c, a.m);
          }
        }
      }
    }

    /** Any region, by any task. */
    method Do(a: Action)
      requires Valid() && Proper(s, a)
      modifies this, queues, sched
      ensures Valid() && s == Next(old(s), a)
    {
      if a.Lock? || a.TryLock? || a.Unlock? {
        DoMutex(a);
      } else if a.Enter? || a.Release? || a.Leave? || a.Signal? {
        DoCond(a);
      } else if a.t in pc {
        if a.Unpark? && Owes(pc[a.t]) != NONE && Owes(pc[a.t]) in pc {
          UnparkTask(a.t);
        } else if a.Park? && pc[a.t].Waits? {
          var blocked := ParkTask(a.t);
        } else if a.Resume? && pc[a.t].Woken? {
          ResumeTask(a.t);
        }
      }
    }

    /** The scheduler switches a processor: no task's waiting is disturbed. */
    method Switch(cpu: nat)
      requires Valid() && cpu < R.CPUS
      modifies sched
      ensures Valid() && s == old(s)
    {
      UnsealSched(Depth(), sched);
      ghost var v, p := V(), sched.current[cpu];
      sched.Schedule(cpu);
      UnsealSched(Depth(), sched);
      SwitchCoupled(Depth(), layout, s, v, old(sched.queues), p, cpu, sched.tasks, sched.queues, sched.current[cpu]);
    }

    /**
     Over every interleaving of these regions and of processor switches, the mutexes, the
     queues and the scheduler's tasks are what the state machine says.
     */
    method Run(hs: seq<Happening>)
      requires Valid() && AllProper(s, Regions(hs)) && forall i :: 0 <= i < |hs| && hs[i].Switching? ==> hs[i].cpu < R.CPUS
      modifies this, queues, sched
      ensures Valid() && s == Sync.Run(old(s), Regions(hs))
    {
      for i := 0 to |hs|
        invariant Valid() && s == Sync.Run(old(s), Regions(hs[..i]))
      {
        RegionsStep(old(s), hs, i);
        match hs[i] {
          case Region(a) => Do(a);
          case Switching(cpu) => Switch(cpu);
        }
      }
      assert hs[..|hs|] == hs;
    }
  }

  datatype Happening = Region(a: Action) | Switching(cpu: nat)

  ghost function Regions(hs: seq<Happening>): seq<Action> {
    if hs == [] then []
    else
      var n := |hs| - 1;
      Regions(hs[..n]) + if hs[n].Region? then [hs[n].a] else []
  }

  lemma {:induction false} RegionsPrefix(hs: seq<Happening>, i: nat)
    requires i <= |hs|
    ensures Regions(hs[..i]) <= Regions(hs)
    decreases |hs|
  {
    if i < |hs| {
      var n := |hs| - 1;
      RegionsPrefix(hs[..n], i);
      assert hs[..n][..i] == hs[..i];
    } else {
      assert hs[..i] == hs;
    }
  }

  lemma RegionsStep(s: State, hs: seq<Happening>, i: nat)
    requires i < |hs| && AllProper(s, Regions(hs))
    ensures Regions(hs[..i + 1]) == Regions(hs[..i]) + if hs[i].Region? then [hs[i].a] else []
    ensures hs[i].Region? ==> Proper(Sync.Run(s, Regions(hs[..i])), hs[i].a)
    ensures hs[i].Region? ==> Sync.Run(s, Regions(hs[..i + 1])) == Next(Sync.Run(s, Regions(hs[..i])), hs[i].a)
    ensures !hs[i].Region? ==> Regions(hs[..i + 1]) == Regions(hs[..i])
  {
    var before, after := Regions(hs[..i]), Regions(hs[..i + 1]);
    assert hs[..i + 1][..i] == hs[..i];
    if hs[i].Region? {
      RegionsPrefix(hs, i + 1);
      var k := |before|;
      assert after[..k] == before && Regions(hs)[..k] == after[..k] && Regions(hs)[k] == after[k];
      assert Proper(Sync.Run(s, Regions(hs)[..k]), Regions(hs)[k]);
    }
  }

  function FirstPlaces(tasks: set<nat>): map<nat, Phase> { map t | t in tasks :: Free }

  function FirstWords(l: Layout): map<nat, MutexWord> { map m | m in l.ofMutex :: MutexWord(false, NONE) }

  function FirstHolders(l: Layout): map<nat, int> { map c | c in l.ofCond :: NONE }

  lemma StartCoupled(n: nat, l: Layout, tasks: set<nat>, lists: map<nat, seq<nat>>, slots: seq<R.Task>)
    requires Separate(l) && TasksAgree(Start(tasks, l.ofMutex.Keys, l.ofCond.Keys), slots)
    requires QueuesAgree(l, Start(tasks, l.ofMutex.Keys, l.ofCond.Keys), FirstWords(l), FirstHolders(l), lists)
    ensures Coupled(n, l, Start(tasks, l.ofMutex.Keys, l.ofCond.Keys), View(FirstPlaces(tasks), FirstWords(l), FirstHolders(l), lists, slots))
    ensures FirstPlaces(tasks) == Start(tasks, l.ofMutex.Keys, l.ofCond.Keys).phase
  {
    var s := Start(tasks, l.ofMutex.Keys, l.ofCond.Keys);
    var v := View(FirstPlaces(tasks), FirstWords(l), FirstHolders(l), lists, slots);
    assert v.pc == s.phase;
    StartSealed(|v.pc|, tasks, l.ofMutex.Keys, l.ofCond.Keys);
    PutTogether(n, l, s, v);
  }

  lemma PutTogether(n: nat, l: Layout, s: State, v: View)
    requires Separate(l) && Sealed(|v.pc|, s) && v.pc == s.phase && QueuesAgree(l, s, v.words, v.holders, v.lists) && TasksAgree(s, v.tasks)
    ensures Coupled(n, l, s, v)
  {
    Uncouple(n, l, s, v);
  }

  lemma StartSealed(n: nat, tasks: set<nat>, mutexes: set<nat>, conds: set<nat>)
    ensures Sealed(n, Start(tasks, mutexes, conds))
  {
    RunInv(tasks, mutexes, conds, []);
    Unseal(n, Start(tasks, mutexes, conds));
  }

  /** Empty queues, one for each object, agree with the start. */
  lemma StartQueues(l: Layout, s: State, words: map<nat, MutexWord>, holders: map<nat, int>, lists: map<nat, seq<nat>>)
    requires words.Keys == s.mutexes.Keys == l.ofMutex.Keys && holders.Keys == s.conds.Keys == l.ofCond.Keys
    requires forall m :: m in words ==> words[m] == MutexWord(false, NONE) && s.mutexes[m] == Mutex(false, NONE, [], [], [])
    requires forall c :: c in holders ==> holders[c] == NONE && s.conds[c] == Cond(NONE, [])
    requires lists.Keys == l.ofMutex.Values + l.ofCond.Values && forall q :: q in lists ==> lists[q] == []
    ensures QueuesAgree(l, s, words, holders, lists)
  {
    forall m | m in words ensures MutexAgrees(l, s, words, lists, m) {
      assert l.ofMutex[m] in l.ofMutex.Values;
    }
    forall c | c in holders ensures CondAgrees(l, s, holders, lists, c) {
      assert l.ofCond[c] in l.ofCond.Values;
    }
  }
}
