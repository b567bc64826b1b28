/**
 Mutexes and condition variables over park and unpark (`mutex.c`, `condvar.c`, `sched.c`):
 a state machine whose steps are the regions under one lock, interleaved freely among any
 number of tasks, mutexes and conditions.

 Tasks park only here, are woken only by unpark and are not killed while they wait.  Any
 task may unlock any mutex, as in the code; `Ownership` says what that does to owners.
 */
module Sync {
  import opened Wrappers

  const IDLE_TASKS: nat := 4             // park does nothing for the idle tasks 0 to 3
  const NONE: int := -1

  /** What a task waits for: a mutex, or a condition and then the mutex it released. */
  datatype Object = OnMutex(m: nat) | OnCond(c: nat, m: nat)

  datatype Phase =
    | Free                                        // outside these functions
    | Locks(m: nat)                               // about to enter `mutex_lock`, after a condition wait
    | Unlocking(next: nat)                        // handed the mutex on; the unpark is still to come
    | Signalling(next: nat, all: bool, c: nat)    // dequeued a waiter; the unpark is still to come
    | Broadcasts(c: nat)                          // between two rounds of `condvar_broadcast`
    | Publishing(c: nat, m: nat)                  // queued on the condition, holding its lock
    | Releasing(c: nat, m: nat, due: int)         // released the mutex, still holding the condition's lock
    | Waits(o: Object)                            // queued, not yet parked
    | Parked(o: Object)                           // blocked
    | Woken(o: Object)                            // made ready by an unpark

  /** `came` and `served` record, in order, who queued and who was handed the mutex. */
  datatype Mutex = Mutex(locked: bool, owner: int, waiters: seq<nat>, came: seq<nat>, served: seq<nat>)

  /** `holder` holds the condition's spinlock. */
  datatype Cond = Cond(holder: int, waiters: seq<nat>)

  /** `owedBy` names, for each task dequeued but not yet unparked, who will unpark it. */
  datatype State = State(phase: map<nat, Phase>, mutexes: map<nat, Mutex>, conds: map<nat, Cond>,
                         tokens: set<nat>, owedBy: map<nat, nat>)

  datatype Action =
    | Lock(t: nat, m: nat) | TryLock(t: nat, m: nat) | Unlock(t: nat, m: nat)
    | Enter(t: nat, c: nat, m: nat) | Release(t: nat) | Leave(t: nat)      // the three regions of `condvar_wait`
    | Signal(t: nat, c: nat, all: bool)
    | Unpark(t: nat)                                                       // the wake-up `t` owes
    | Park(t: nat) | Resume(t: nat)

  // ---------------------------------------------------------------- steps

  function Owes(p: Phase): int {
    match p
    case Unlocking(n) => n
    case Signalling(n, _, _) => n
    case Releasing(_, _, n) => n
    case _ => NONE
  }

  function Target(o: Object): Phase {
    match o
    case OnMutex(_) => Free
    case OnCond(_, m) => Locks(m)
  }

  /** Where an agent goes once it has paid the wake-up it owed. */
  function Paid(p: Phase): Phase {
    match p
    case Signalling(_, all, c) => if all then Broadcasts(c) else Free
    case Releasing(c, m, _) => Releasing(c, m, NONE)
    case _ => Free
  }

  /** `mutex_lock` under the mutex's lock. */
  function Locked(s: State, t: nat, m: nat): State
    requires m in s.mutexes
  {
    var x := s.mutexes[m];
    if !x.locked then s.(mutexes := s.mutexes[m := x.(locked := true, owner := t)], phase := s.phase[t := Free])
    else if t in x.waiters then s.(phase := s.phase[t := Free])
    else s.(mutexes := s.mutexes[m := x.(waiters := x.waiters + [t], came := x.came + [t])], phase := s.phase[t := Waits(OnMutex(m))])
  }

  function HeadOf(q: seq<nat>): int { if q == [] then NONE else q[0] }

  /** The mutex after `mutex_unlock`: free, or the first waiter's. */
  function Passed(x: Mutex): Mutex {
    if x.waiters == [] then x.(locked := false, owner := NONE)
    else x.(owner := x.waiters[0], waiters := x.waiters[1..], served := x.served + [x.waiters[0]])
  }

  /** `mutex_unlock` under the mutex's lock; `p` is the caller's phase afterwards. */
  function Handed(s: State, t: nat, m: nat, p: Phase): State
    requires m in s.mutexes
  {
    var x := s.mutexes[m];
    s.(mutexes := s.mutexes[m := Passed(x)], phase := s.phase[t := p],
       owedBy := if x.waiters == [] then s.owedBy else s.owedBy[x.waiters[0] := t])
  }

  /** One round of `condvar_signal` or `condvar_broadcast`. */
  function Signalled(s: State, t: nat, c: nat, all: bool): State
    requires c in s.conds
  {
    var x := s.conds[c];
    if x.waiters == [] then s.(phase := s.phase[t := Free])
    else
      var w := x.waiters[0];
      s.(conds := s.conds[c := x.(waiters := x.waiters[1..])], phase := s.phase[t := Signalling(w, all, c)],
         owedBy := s.owedBy[w := t])
  }

  /** `sched_unpark_task`: a parked task becomes ready, any other gets a token. */
  function Unparked(s: State, t: nat, n: nat): State
    requires t in s.phase && n in s.phase
  {
    var s1 := s.(owedBy := s.owedBy - {n}, phase := s.phase[t := Paid(s.phase[t])]);
    if s.phase[n].Parked? then s1.(phase := s1.phase[n := Woken(s.phase[n].o)])
    else s1.(tokens := s.tokens + {n})
  }

  predicate CanSignal(s: State, t: nat, c: nat, all: bool) {
    t in s.phase && c in s.conds && s.conds[c].holder == NONE && (s.phase[t].Free? || (all && s.phase[t] == Broadcasts(c)))
  }

  /** The step an action makes, or the same state where it is not possible. */
  function Next(s: State, a: Action): State {
    if a.t !in s.phase then s else
    var p := s.phase[a.t];
    match a
    case Lock(t, m) => if m in s.mutexes && (p.Free? || p == Locks(m)) then Locked(s, t, m) else s
    case TryLock(t, m) => if m in s.mutexes && p.Free? && !s.mutexes[m].locked then Locked(s, t, m) else s
    case Unlock(t, m) =>
      if m in s.mutexes && p.Free?
      then Handed(s, t, m, if s.mutexes[m].waiters == [] then Free else Unlocking(s.mutexes[m].waiters[0])) else s
    case Enter(t, c, m) =>
      if m in s.mutexes && c in s.conds && p.Free? && s.conds[c].holder == NONE && t !in s.conds[c].waiters
      then s.(conds := s.conds[c := Cond(t, s.conds[c].waiters + [t])], phase := s.phase[t := Publishing(c, m)]) else s
    case Release(t) =>
      if p.Publishing? && p.m in s.mutexes then Handed(s, t, p.m, Releasing(p.c, p.m, HeadOf(s.mutexes[p.m].waiters))) else s
    case Leave(t) =>
      if p.Releasing? && p.due == NONE && p.c in s.conds
      then s.(conds := s.conds[p.c := s.conds[p.c].(holder := NONE)], phase := s.phase[t := Waits(OnCond(p.c, p.m))]) else s
    case Signal(t, c, all) => if CanSignal(s, t, c, all) then Signalled(s, t, c, all) else s
    case Unpark(t) => if Owes(p) != NONE && Owes(p) in s.phase then Unparked(s, t, Owes(p)) else s
    case Park(t) =>
      if !p.Waits? then s
      else if t < IDLE_TASKS then s.(phase := s.phase[t := Target(p.o)])
      else if t in s.tokens then s.(tokens := s.tokens - {t}, phase := s.phase[t := Target(p.o)])
      else s.(phase := s.phase[t := Parked(p.o)])
    case Resume(t) => if p.Woken? then s.(phase := s.phase[t := Target(p.o)]) else s
  }

  // ---------------------------------------------------------------- the invariant

  predicate Queued(p: Phase, o: Object) { p == Waits(o) || p == Parked(o) }

  /** The phase of a task queued on condition `c`. */
  predicate AtCond(p: Phase, c: nat) {
    match p
    case Publishing(d, _) => d == c
    case Releasing(d, _, _) => d == c
    case Waits(o) => o.OnCond? && o.c == c
    case Parked(o) => o.OnCond? && o.c == c
    case _ => false
  }

  predicate Holding(p: Phase, c: nat) {
    (p.Publishing? || p.Releasing?) && p.c == c
  }

  ghost predicate MutexOk(s: State, m: nat)
    requires m in s.mutexes
  {
    var x := s.mutexes[m];
    && (x.locked <==> x.owner != NONE) && (x.waiters != [] ==> x.locked) && (x.locked ==> x.owner in s.phase)
    && NoDup(x.waiters) && x.came == x.served + x.waiters
    && forall w :: w in x.waiters ==> w in s.phase && Queued(s.phase[w], OnMutex(m))
  }

  ghost predicate CondOk(s: State, c: nat)
    requires c in s.conds
  {
    var x := s.conds[c];
    && NoDup(x.waiters)
    && (forall w :: w in x.waiters ==> w in s.phase && AtCond(s.phase[w], c))
    && (x.holder != NONE ==> x.holder in s.phase && Holding(s.phase[x.holder], c))
  }

  ghost predicate InQueue(s: State, t: nat, o: Object) {
    match o
    case OnMutex(m) => m in s.mutexes && t in s.mutexes[m].waiters
    case OnCond(c, m) => c in s.conds && m in s.mutexes && t in s.conds[c].waiters
  }

  /** A waiter has been taken off its queue. */
  ghost predicate Granted(s: State, t: nat, o: Object) {
    !InQueue(s, t, o) && o.m in s.mutexes && (o.OnCond? ==> o.c in s.conds)
  }

  /** Exactly one thing stands between a waiting task and its return. */
  ghost predicate TaskOk(s: State, t: nat)
    requires t in s.phase
  {
    var token, owed := t in s.tokens, t in s.owedBy;
    match s.phase[t]
    case Waits(o) => if InQueue(s, t, o) then !token && !owed else Granted(s, t, o) && token != owed
    case Parked(o) => !token && if InQueue(s, t, o) then !owed else Granted(s, t, o) && owed
    case Woken(o) => !token && !owed && Granted(s, t, o)
    case Publishing(c, m) =>
      && !token && !owed && c in s.conds && m in s.mutexes
      && t in s.conds[c].waiters && s.conds[c].holder == t
    case Releasing(c, m, _) =>
      !token && !owed && c in s.conds && m in s.mutexes && t in s.conds[c].waiters && s.conds[c].holder == t
    case Locks(m) => !token && !owed && m in s.mutexes
    case _ => !token && !owed
  }

  /** Debts and debtors match. */
  ghost predicate DebtOk(s: State, a: nat)
    requires a in s.phase
  {
    Owes(s.phase[a]) != NONE ==> Owes(s.phase[a]) in s.owedBy && s.owedBy[Owes(s.phase[a])] == a
  }

  ghost predicate Inv(s: State) {
    && (forall m :: m in s.mutexes ==> MutexOk(s, m))
    && (forall c :: c in s.conds ==> CondOk(s, c))
    && (forall t :: t in s.phase ==> TaskOk(s, t) && DebtOk(s, t))
    && (forall n :: n in s.owedBy ==> n in s.phase && s.owedBy[n] in s.phase && Owes(s.phase[s.owedBy[n]]) == n)
    && (forall t :: t in s.tokens ==> t in s.phase)
    && (forall t :: t in s.phase && t < IDLE_TASKS ==> !Blocking(s.phase[t]))
  }

  predicate Blocking(p: Phase) {
    p.Waits? || p.Parked? || p.Woken? || p.Publishing? || p.Releasing? || p.Locks?
  }

  /** An idle task does not block: it never locks a held mutex and never waits on a condition. */
  predicate Proper(s: State, a: Action) {
    a.t < IDLE_TASKS && a.t in s.phase && s.phase[a.t].Free? ==>
      && (a.Lock? ==> !(a.m in s.mutexes && s.mutexes[a.m].locked))
      && (a.Enter? ==> Next(s, a) == s)
  }

  // ---------------------------------------------------------------- every step keeps it

  /** A step that does not concern task `u`. */
  ghost predicate Aside(s: State, s': State, u: nat) {
    && u in s.phase && u in s'.phase && s'.phase[u] == s.phase[u]
    && (u in s'.tokens <==> u in s.tokens) && (u in s'.owedBy <==> u in s.owedBy)
    && s'.mutexes.Keys == s.mutexes.Keys && s'.conds.Keys == s.conds.Keys
    && (forall m :: m in s.mutexes ==> AsideMutex(s.mutexes[m], s'.mutexes[m], u))
    && (forall c :: c in s.conds ==> AsideCond(s.conds[c], s'.conds[c], u))
  }

  predicate AsideMutex(x: Mutex, x': Mutex, u: nat) {
    u in x'.waiters <==> u in x.waiters
  }

  predicate AsideCond(x: Cond, x': Cond, u: nat) {
    (u in x'.waiters <==> u in x.waiters) && (x.holder == u ==> x'.holder == u)
  }

  lemma AsideOk(s: State, s': State, u: nat)
    requires Aside(s, s', u) && TaskOk(s, u)
    ensures TaskOk(s', u)
  {
    var p := s.phase[u];
    if p.Waits? || p.Parked? || p.Woken? {
      var o := p.o;
      assert o.m in s.mutexes ==> AsideMutex(s.mutexes[o.m], s'.mutexes[o.m], u);
      assert o.OnCond? && o.c in s.conds ==> AsideCond(s.conds[o.c], s'.conds[o.c], u);
    } else if p.Publishing? || p.Releasing? {
      assert p.m in s.mutexes ==> AsideMutex(s.mutexes[p.m], s'.mutexes[p.m], u);
      assert p.c in s.conds ==> AsideCond(s.conds[p.c], s'.conds[p.c], u);
    }
  }

  ghost predicate Mutexes(s: State) { forall m :: m in s.mutexes ==> MutexOk(s, m) }

  ghost predicate Conds(s: State) { forall c :: c in s.conds ==> CondOk(s, c) }

  ghost predicate Tasks(s: State) { forall t :: t in s.phase ==> TaskOk(s, t) }

  ghost predicate Debts(s: State) {
    && (forall t :: t in s.phase ==> DebtOk(s, t))
    && (forall n :: n in s.owedBy ==> n in s.phase && s.owedBy[n] in s.phase && Owes(s.phase[s.owedBy[n]]) == n)
    && (forall t :: t in s.tokens ==> t in s.phase)
    && (forall t :: t in s.phase && t < IDLE_TASKS ==> !Blocking(s.phase[t]))
  }

  lemma Parts(s: State)
    ensures Inv(s) <==> Mutexes(s) && Conds(s) && Tasks(s) && Debts(s)
  {
  }

  /** Only the phases of `t` and `n` changed, and both stay where the queues expect them. */
  ghost predicate PhaseStep(s: State, s': State, t: nat, n: nat) {
    && s'.phase.Keys == s.phase.Keys && t in s.phase && n in s.phase
    && (forall u :: u in s.phase && u != t && u != n ==> s'.phase[u] == s.phase[u])
    && Compatible(s.phase[t], s'.phase[t]) && Compatible(s.phase[n], s'.phase[n])
  }

  /** A task a queue or a condition lock may name keeps its place. */
  ghost predicate Compatible(p: Phase, p': Phase) {
    && (p.Waits? ==> p' == p || p' == Parked(p.o))
    && (p.Parked? ==> p' == p)
    && (p.Publishing? ==> Holding(p', p.c)) && (p.Releasing? ==> Holding(p', p.c))
  }

  lemma MutexesKept(s: State, s': State, t: nat, n: nat, m: nat)
    requires Mutexes(s) && PhaseStep(s, s', t, n) && s'.mutexes.Keys == s.mutexes.Keys
    requires forall k :: k in s.mutexes && k != m ==> s'.mutexes[k] == s.mutexes[k]
    requires m in s'.mutexes ==> MutexOk(s', m)
    ensures Mutexes(s')
  {
    forall k | k in s'.mutexes ensures MutexOk(s', k) {
      if k != m {
        assert MutexOk(s, k);
      }
    }
  }

  lemma CondsKept(s: State, s': State, t: nat, n: nat)
    requires Conds(s) && PhaseStep(s, s', t, n) && s'.conds == s.conds
    ensures Conds(s')
  {
    forall c | c in s'.conds ensures CondOk(s', c) {
      assert CondOk(s, c);
    }
  }

  lemma TasksKept(s: State, s': State, t: nat, n: nat)
    requires Tasks(s) && s'.phase.Keys == s.phase.Keys && t in s.phase && n in s.phase
    requires forall u :: u in s.phase && u != t && u != n ==> Aside(s, s', u)
    requires TaskOk(s', t) && TaskOk(s', n)
    ensures Tasks(s')
  {
    forall u | u in s'.phase ensures TaskOk(s', u) {
      if u != t && u != n {
        AsideOk(s, s', u);
      }
    }
  }

  /** A step that moves only `t` and touches no queue. */
  lemma OwnTasks(s: State, s': State, t: nat)
    requires Tasks(s) && s'.phase.Keys == s.phase.Keys && t in s.phase
    requires s'.mutexes == s.mutexes && s'.conds == s.conds && s'.owedBy == s.owedBy
    requires forall u :: u in s.phase && u != t ==> s'.phase[u] == s.phase[u] && (u in s'.tokens <==> u in s.tokens)
    requires TaskOk(s', t)
    ensures Tasks(s')
  {
    TasksKept(s, s', t, t);
  }

  // ---------------------------------------------------------------- locking

  lemma LockAside(s: State, t: nat, m: nat, u: nat)
    requires m in s.mutexes && t in s.phase && u in s.phase && u != t
    ensures Aside(s, Locked(s, t, m), u)
  {
  }

  lemma LockDebts(s: State, t: nat, m: nat)
    requires Debts(s) && m in s.mutexes && t in s.phase && (s.phase[t].Free? || s.phase[t] == Locks(m))
    requires s.mutexes[m].locked ==> t >= IDLE_TASKS
    ensures Debts(Locked(s, t, m))
  {
    var s' := Locked(s, t, m);
    forall a | a in s'.phase ensures DebtOk(s', a) {
      assert DebtOk(s, a);
    }
  }

  lemma LockParts(s: State, t: nat, m: nat)
    requires Mutexes(s) && Conds(s) && Tasks(s) && t in s.phase && m in s.mutexes && (s.phase[t].Free? || s.phase[t] == Locks(m))
    ensures Mutexes(Locked(s, t, m)) && Conds(Locked(s, t, m)) && Tasks(Locked(s, t, m))
  {
    var s' := Locked(s, t, m);
    assert MutexOk(s, m) && TaskOk(s, t);
    LockedOk(s, t, m);
    MutexesKept(s, s', t, t, m);
    CondsKept(s, s', t, t);
    forall u | u in s.phase && u != t ensures Aside(s, s', u) {
      LockAside(s, t, m, u);
    }
    TasksKept(s, s', t, t);
  }

  lemma LockInv(s: State, t: nat, m: nat)
    requires Inv(s) && t in s.phase && m in s.mutexes && (s.phase[t].Free? || s.phase[t] == Locks(m))
    requires s.mutexes[m].locked ==> t >= IDLE_TASKS
    ensures Inv(Locked(s, t, m))
  {
    Parts(s);
    LockParts(s, t, m);
    LockDebts(s, t, m);
    Parts(Locked(s, t, m));
  }

  lemma LockedOk(s: State, t: nat, m: nat)
    requires m in s.mutexes && MutexOk(s, m) && t in s.phase && TaskOk(s, t) && (s.phase[t].Free? || s.phase[t] == Locks(m))
    ensures t !in s.mutexes[m].waiters && MutexOk(Locked(s, t, m), m) && TaskOk(Locked(s, t, m), t)
  {
    var x := s.mutexes[m];
    assert x.came + [t] == x.served + (x.waiters + [t]);
  }

  /** The caller is in `mutex_unlock`, by itself or inside `condvar_wait`. */
  predicate HandsOn(before: Phase, after: Phase, m: nat) {
    if before.Free? then after.Free? || after.Unlocking?
    else before.Publishing? && before.m == m && after.Releasing? && after.c == before.c && after.m == m
  }

  lemma PassedOk(s: State, s': State, m: nat, t: nat)
    requires m in s.mutexes && MutexOk(s, m) && m in s'.mutexes && s'.mutexes[m] == Passed(s.mutexes[m]) && s'.phase.Keys == s.phase.Keys
    requires forall w :: w in s.phase && w != t ==> s'.phase[w] == s.phase[w]
    requires t in s.phase && !s.phase[t].Waits? && !s.phase[t].Parked?
    ensures MutexOk(s', m)
  {
    var x := s.mutexes[m];
    if x.waiters != [] {
      assert x.waiters[0] in x.waiters;
      assert x.served + x.waiters == x.served + [x.waiters[0]] + x.waiters[1..];
      assert forall w :: w in x.waiters[1..] ==> w in x.waiters;
    }
  }

  /** The waiter at the head of a queue, before and after it is handed the mutex. */
  lemma HandedTask(s: State, t: nat, m: nat, p: Phase, n: nat)
    requires m in s.mutexes && MutexOk(s, m) && n in s.phase && TaskOk(s, n) && t in s.phase && n != t
    requires s.mutexes[m].waiters != [] && n == s.mutexes[m].waiters[0]
    ensures TaskOk(Handed(s, t, m, p), n)
  {
    var x := s.mutexes[m];
    assert n in x.waiters && n !in x.waiters[1..];
  }

  lemma HandAside(s: State, t: nat, m: nat, p: Phase, u: nat)
    requires m in s.mutexes && t in s.phase && u in s.phase && u != t
    requires s.mutexes[m].waiters != [] ==> u != s.mutexes[m].waiters[0]
    ensures Aside(s, Handed(s, t, m, p), u)
  {
    var x := s.mutexes[m];
    assert x.waiters != [] ==> x.waiters == [x.waiters[0]] + x.waiters[1..];
    assert AsideMutex(x, Passed(x), u);
  }

  lemma HandTasks(s: State, t: nat, m: nat, p: Phase)
    requires Mutexes(s) && Tasks(s) && t in s.phase && m in s.mutexes && HandsOn(s.phase[t], p, m)
    ensures Tasks(Handed(s, t, m, p))
  {
    var s', x := Handed(s, t, m, p), s.mutexes[m];
    assert MutexOk(s, m) && TaskOk(s, t);
    var n := t;
    if x.waiters != [] {
      n := x.waiters[0];
      assert n in x.waiters && TaskOk(s, n);
      HandedTask(s, t, m, p, n);
    }
    assert TaskOk(s', t);
    forall u | u in s.phase && u != t && u != n ensures Aside(s, s', u) {
      HandAside(s, t, m, p, u);
    }
    TasksKept(s, s', t, n);
  }

  lemma HandDebts(s: State, t: nat, m: nat, p: Phase)
    requires Debts(s) && t in s.phase && m in s.mutexes && MutexOk(s, m) && HandsOn(s.phase[t], p, m)
    requires Owes(p) == HeadOf(s.mutexes[m].waiters)
    requires s.mutexes[m].waiters != [] ==> s.mutexes[m].waiters[0] !in s.owedBy
    ensures Debts(Handed(s, t, m, p))
  {
    var s', x := Handed(s, t, m, p), s.mutexes[m];
    assert x.waiters != [] ==> x.waiters[0] in x.waiters;
    forall a | a in s'.phase ensures DebtOk(s', a) {
      assert DebtOk(s, a);
    }
  }

  /** Handing a mutex on, whoever does it: the first waiter owns it and is owed a wake-up. */
  lemma HandInv(s: State, t: nat, m: nat, p: Phase)
    requires Inv(s) && t in s.phase && m in s.mutexes
    requires Owes(p) == HeadOf(s.mutexes[m].waiters) && HandsOn(s.phase[t], p, m)
    ensures Inv(Handed(s, t, m, p))
  {
    Parts(s);
    assert MutexOk(s, m) && TaskOk(s, t);
    if s.mutexes[m].waiters != [] {
      assert s.mutexes[m].waiters[0] in s.mutexes[m].waiters && TaskOk(s, s.mutexes[m].waiters[0]);
    }
    HandQueues(s, t, m, p);
    HandTasks(s, t, m, p);
    HandDebts(s, t, m, p);
    Parts(Handed(s, t, m, p));
  }

  lemma HandQueues(s: State, t: nat, m: nat, p: Phase)
    requires Mutexes(s) && Conds(s) && t in s.phase && m in s.mutexes && HandsOn(s.phase[t], p, m)
    ensures Mutexes(Handed(s, t, m, p)) && Conds(Handed(s, t, m, p))
  {
    var s' := Handed(s, t, m, p);
    assert MutexOk(s, m);
    PassedOk(s, s', m, t);
    MutexesKept(s, s', t, t, m);
    CondsKept(s, s', t, t);
  }

  // ---------------------------------------------------------------- conditions

  lemma MutexesSame(s: State, s': State, t: nat)
    requires Mutexes(s) && s'.mutexes == s.mutexes && s'.phase.Keys == s.phase.Keys && t in s.phase
    requires forall u :: u in s.phase && u != t ==> s'.phase[u] == s.phase[u]
    requires (s.phase[t].Waits? ==> s'.phase[t] == Parked(s.phase[t].o)) && !s.phase[t].Parked?
    ensures Mutexes(s')
  {
    forall k | k in s'.mutexes ensures MutexOk(s', k) {
      assert MutexOk(s, k);
    }
  }

  lemma CondsBut(s: State, s': State, t: nat, c: nat)
    requires Conds(s) && s'.phase.Keys == s.phase.Keys && t in s.phase && s'.conds.Keys == s.conds.Keys
    requires forall u :: u in s.phase && u != t ==> s'.phase[u] == s.phase[u]
    requires forall k :: k in s.conds && k != c ==> s'.conds[k] == s.conds[k] && !AtCond(s.phase[t], k)
    requires c in s'.conds ==> CondOk(s', c)
    ensures Conds(s')
  {
    forall k | k in s'.conds ensures CondOk(s', k) {
      if k != c {
        assert CondOk(s, k);
      }
    }
  }

  /** The waiter is published under the condition's lock before it releases the mutex. */
  lemma EnterInv(s: State, t: nat, c: nat, m: nat)
    requires Inv(s) && t in s.phase && m in s.mutexes && c in s.conds && s.phase[t].Free? && t >= IDLE_TASKS
    requires s.conds[c].holder == NONE
    ensures Inv(s.(conds := s.conds[c := Cond(t, s.conds[c].waiters + [t])], phase := s.phase[t := Publishing(c, m)]))
  {
    var s' := s.(conds := s.conds[c := Cond(t, s.conds[c].waiters + [t])], phase := s.phase[t := Publishing(c, m)]);
    Parts(s);
    assert TaskOk(s, t) && DebtOk(s, t);
    EnterQueues(s, s', t, c, m);
    EnterTasks(s, s', t, c, m);
    PhaseDebts(s, s', t);
    Parts(s');
  }

  lemma EnterQueues(s: State, s': State, t: nat, c: nat, m: nat)
    requires Mutexes(s) && Conds(s) && t in s.phase && c in s.conds && s.phase[t].Free?
    requires s' == s.(conds := s.conds[c := Cond(t, s.conds[c].waiters + [t])], phase := s.phase[t := Publishing(c, m)])
    ensures Mutexes(s') && Conds(s')
  {
    MutexesSame(s, s', t);
    assert CondOk(s, c) && CondOk(s', c);
    CondsBut(s, s', t, c);
  }

  lemma EnterTasks(s: State, s': State, t: nat, c: nat, m: nat)
    requires Tasks(s) && t in s.phase && m in s.mutexes && c in s.conds && s.conds[c].holder == NONE
    requires s.phase[t].Free? && s' == s.(conds := s.conds[c := Cond(t, s.conds[c].waiters + [t])], phase := s.phase[t := Publishing(c, m)])
    ensures Tasks(s')
  {
    assert TaskOk(s, t) && TaskOk(s', t);
    forall u | u in s.phase && u != t ensures Aside(s, s', u) {
      assert AsideCond(s.conds[c], s'.conds[c], u);
    }
    TasksKept(s, s', t, t);
  }

  /** Only the phase of `t` changed, and it owed and owes nothing. */
  lemma PhaseDebts(s: State, s': State, t: nat)
    requires Debts(s) && t in s.phase && s'.phase.Keys == s.phase.Keys && s'.owedBy == s.owedBy && s'.tokens <= s.tokens
    requires (forall u :: u in s.phase && u != t ==> s'.phase[u] == s.phase[u])
    requires Owes(s.phase[t]) == Owes(s'.phase[t]) && (t < IDLE_TASKS ==> !Blocking(s'.phase[t]))
    ensures Debts(s')
  {
    forall a | a in s'.phase ensures DebtOk(s', a) {
      assert DebtOk(s, a);
    }
  }

  lemma LeaveInv(s: State, t: nat)
    requires Inv(s) && t in s.phase && s.phase[t].Releasing? && s.phase[t].due == NONE
    ensures var c, m := s.phase[t].c, s.phase[t].m;
      c in s.conds && Inv(s.(conds := s.conds[c := s.conds[c].(holder := NONE)], phase := s.phase[t := Waits(OnCond(c, m))]))
  {
    Parts(s);
    assert TaskOk(s, t) && DebtOk(s, t);
    var c, m := s.phase[t].c, s.phase[t].m;
    var s' := s.(conds := s.conds[c := s.conds[c].(holder := NONE)], phase := s.phase[t := Waits(OnCond(c, m))]);
    LeaveQueues(s, s', t, c, m);
    LeaveTasks(s, s', t, c, m);
    PhaseDebts(s, s', t);
    Parts(s');
  }

  lemma LeaveQueues(s: State, s': State, t: nat, c: nat, m: nat)
    requires Mutexes(s) && Conds(s) && t in s.phase && s.phase[t] == Releasing(c, m, NONE) && c in s.conds
    requires s' == s.(conds := s.conds[c := s.conds[c].(holder := NONE)], phase := s.phase[t := Waits(OnCond(c, m))])
    ensures Mutexes(s') && Conds(s')
  {
    MutexesSame(s, s', t);
    assert CondOk(s, c) && CondOk(s', c);
    CondsBut(s, s', t, c);
  }

  lemma LeaveTasks(s: State, s': State, t: nat, c: nat, m: nat)
    requires Tasks(s) && t in s.phase && s.phase[t] == Releasing(c, m, NONE) && c in s.conds
    requires s' == s.(conds := s.conds[c := s.conds[c].(holder := NONE)], phase := s.phase[t := Waits(OnCond(c, m))])
    ensures Tasks(s')
  {
    assert TaskOk(s, t) && TaskOk(s', t);
    forall u | u in s.phase && u != t ensures Aside(s, s', u) {
      assert AsideCond(s.conds[c], s'.conds[c], u);
    }
    TasksKept(s, s', t, t);
  }

  // ---------------------------------------------------------------- signalling

  lemma SignalTask(s: State, t: nat, c: nat, all: bool)
    requires CanSignal(s, t, c, all) && CondOk(s, c) && s.conds[c].waiters != []
    requires s.conds[c].waiters[0] in s.phase && TaskOk(s, s.conds[c].waiters[0]) && TaskOk(s, t)
    ensures var n := s.conds[c].waiters[0];
      n != t && n !in s.owedBy && TaskOk(Signalled(s, t, c, all), n) && CondOk(Signalled(s, t, c, all), c)
  {
    var x := s.conds[c];
    assert x.waiters[0] in x.waiters && x.waiters[0] !in x.waiters[1..];
    assert forall w :: w in x.waiters[1..] ==> w in x.waiters;
  }

  lemma SignalAside(s: State, t: nat, c: nat, all: bool, u: nat)
    requires CanSignal(s, t, c, all) && u in s.phase && u != t && s.conds[c].waiters != [] && u != s.conds[c].waiters[0]
    ensures Aside(s, Signalled(s, t, c, all), u)
  {
    var x := s.conds[c];
    assert x.waiters == [x.waiters[0]] + x.waiters[1..];
    assert AsideCond(x, Signalled(s, t, c, all).conds[c], u);
  }

  lemma SignalQueues(s: State, t: nat, c: nat, all: bool)
    requires Mutexes(s) && Conds(s) && CanSignal(s, t, c, all) && CondOk(Signalled(s, t, c, all), c)
    ensures Mutexes(Signalled(s, t, c, all)) && Conds(Signalled(s, t, c, all))
  {
    MutexesSame(s, Signalled(s, t, c, all), t);
    CondsBut(s, Signalled(s, t, c, all), t, c);
  }

  lemma SignalDebts(s: State, t: nat, c: nat, all: bool)
    requires Debts(s) && CanSignal(s, t, c, all) && s.conds[c].waiters != []
    requires s.conds[c].waiters[0] !in s.owedBy && s.conds[c].waiters[0] in s.phase
    ensures Debts(Signalled(s, t, c, all))
  {
    var s' := Signalled(s, t, c, all);
    forall a | a in s'.phase ensures DebtOk(s', a) {
      assert DebtOk(s, a);
    }
  }

  lemma SignalInv(s: State, t: nat, c: nat, all: bool)
    requires Inv(s) && CanSignal(s, t, c, all)
    ensures Inv(Signalled(s, t, c, all))
  {
    Parts(s);
    var s', x := Signalled(s, t, c, all), s.conds[c];
    assert CondOk(s, c) && TaskOk(s, t) && DebtOk(s, t);
    if x.waiters == [] {
      QuietInv(s, t);
    } else {
      assert x.waiters[0] in x.waiters && TaskOk(s, x.waiters[0]);
      SignalTask(s, t, c, all);
      SignalQueues(s, t, c, all);
      SignalTasks(s, t, c, all);
      SignalDebts(s, t, c, all);
      Parts(s');
    }
  }

  lemma SignalTasks(s: State, t: nat, c: nat, all: bool)
    requires Tasks(s) && CanSignal(s, t, c, all) && s.conds[c].waiters != [] && s.conds[c].waiters[0] in s.phase
    requires TaskOk(Signalled(s, t, c, all), s.conds[c].waiters[0])
    ensures s.conds[c].waiters[0] != t ==> Tasks(Signalled(s, t, c, all))
  {
    var s', n := Signalled(s, t, c, all), s.conds[c].waiters[0];
    if n != t {
      assert TaskOk(s, t);
      forall u | u in s.phase && u != t && u != n ensures Aside(s, s', u) {
        SignalAside(s, t, c, all, u);
      }
      TasksKept(s, s', t, n);
    }
  }

  /** Nobody to signal. */
  lemma QuietInv(s: State, t: nat)
    requires Inv(s) && t in s.phase && (s.phase[t].Free? || s.phase[t].Broadcasts?)
    ensures Inv(s.(phase := s.phase[t := Free]))
  {
    var s' := s.(phase := s.phase[t := Free]);
    Parts(s);
    assert TaskOk(s, t) && DebtOk(s, t);
    MutexesSame(s, s', t);
    CondsKept(s, s', t, t);
    OwnTasks(s, s', t);
    PhaseDebts(s, s', t);
    Parts(s');
  }

  // ---------------------------------------------------------------- waking and sleeping

  /** The debtor and its creditor, before the wake-up is paid. */
  lemma Debt(s: State, t: nat)
    requires Inv(s) && t in s.phase && Owes(s.phase[t]) != NONE
    ensures var n := Owes(s.phase[t]);
      && n in s.phase && n != t && n in s.owedBy && n !in s.tokens
      && (s.phase[n].Waits? || s.phase[n].Parked?) && Granted(s, n, s.phase[n].o)
  {
    var n := Owes(s.phase[t]);
    assert DebtOk(s, t) && TaskOk(s, n) && TaskOk(s, t);
  }

  /** A waiter off its queue is on no other. */
  lemma OffQueues(s: State, n: nat)
    requires Mutexes(s) && Conds(s) && n in s.phase && (s.phase[n].Waits? || s.phase[n].Parked?) && Granted(s, n, s.phase[n].o)
    ensures forall m :: m in s.mutexes ==> n !in s.mutexes[m].waiters
    ensures forall c :: c in s.conds ==> n !in s.conds[c].waiters && s.conds[c].holder != n
  {
    forall m | m in s.mutexes ensures n !in s.mutexes[m].waiters {
      assert MutexOk(s, m);
    }
    forall c | c in s.conds ensures n !in s.conds[c].waiters && s.conds[c].holder != n {
      assert CondOk(s, c);
    }
  }

  lemma UnparkQueues(s: State, t: nat, n: nat)
    requires Mutexes(s) && Conds(s) && t in s.phase && n in s.phase && n != t && Owes(s.phase[t]) == n
    requires forall m :: m in s.mutexes ==> n !in s.mutexes[m].waiters
    requires forall c :: c in s.conds ==> n !in s.conds[c].waiters && s.conds[c].holder != n
    ensures Mutexes(Unparked(s, t, n)) && Conds(Unparked(s, t, n))
  {
    var s' := Unparked(s, t, n);
    forall m | m in s'.mutexes ensures MutexOk(s', m) {
      assert MutexOk(s, m);
    }
    forall c | c in s'.conds ensures CondOk(s', c) {
      assert CondOk(s, c);
    }
  }

  /** The phases after the wake-up: only the debtor and the waiter may have moved. */
  lemma UnparkPhases(s: State, t: nat, n: nat)
    requires t in s.phase && n in s.phase && n != t && (s.phase[n].Waits? || s.phase[n].Parked?)
    ensures Settled(s, Unparked(s, t, n), t, n)
  {
  }

  ghost predicate Settled(s: State, s': State, t: nat, n: nat) {
    && s'.phase.Keys == s.phase.Keys && s'.owedBy == s.owedBy - {n} && s'.tokens <= s.tokens + {n}
    && (t in s'.phase ==> Owes(s'.phase[t]) == NONE)
    && (forall u :: u in s.phase ==> (u != t ==> Owes(s'.phase[u]) == Owes(s.phase[u])) && (Blocking(s'.phase[u]) ==> Blocking(s.phase[u])))
  }

  lemma UnparkDebts(s: State, s': State, t: nat, n: nat)
    requires Debts(s) && t in s.phase && n in s.phase && Owes(s.phase[t]) == n && Settled(s, s', t, n)
    ensures Debts(s')
  {
    assert DebtOk(s, t);
    forall a | a in s'.phase ensures DebtOk(s', a) {
      assert DebtOk(s, a);
    }
  }

  lemma UnparkTasks(s: State, t: nat, n: nat)
    requires Tasks(s) && t in s.phase && n in s.phase && n != t && Owes(s.phase[t]) == n && n in s.owedBy && n !in s.tokens
    requires (s.phase[n].Waits? || s.phase[n].Parked?) && Granted(s, n, s.phase[n].o)
    ensures Tasks(Unparked(s, t, n))
  {
    var s' := Unparked(s, t, n);
    assert TaskOk(s, t) && TaskOk(s, n);
    assert TaskOk(s', t) && TaskOk(s', n);
    TasksKept(s, s', t, n);
  }

  lemma UnparkInv(s: State, t: nat)
    requires Inv(s) && t in s.phase && Owes(s.phase[t]) != NONE
    ensures Owes(s.phase[t]) in s.phase && Inv(Unparked(s, t, Owes(s.phase[t])))
  {
    var n := Owes(s.phase[t]);
    Debt(s, t);
    Parts(s);
    OffQueues(s, n);
    UnparkQueues(s, t, n);
    UnparkPhases(s, t, n);
    UnparkDebts(s, Unparked(s, t, n), t, n);
    UnparkTasks(s, t, n);
    Parts(Unparked(s, t, n));
  }

  /** `sched_park_task` blocks only a task that has no wake-up waiting for it. */
  lemma ParkInv(s: State, t: nat)
    requires Inv(s) && t in s.phase && s.phase[t].Waits? && t !in s.tokens
    ensures Inv(s.(phase := s.phase[t := Parked(s.phase[t].o)]))
  {
    var s' := s.(phase := s.phase[t := Parked(s.phase[t].o)]);
    Parts(s);
    assert TaskOk(s, t) && DebtOk(s, t);
    MutexesSame(s, s', t);
    CondsKept(s, s', t, t);
    OwnTasks(s, s', t);
    PhaseDebts(s, s', t);
    Parts(s');
  }

  /** A wait that ends, by a token or by a wake-up. */
  lemma EndInv(s: State, t: nat)
    requires Inv(s) && t in s.phase && ((s.phase[t].Waits? && t in s.tokens) || s.phase[t].Woken?)
    ensures Inv(s.(tokens := s.tokens - {t}, phase := s.phase[t := Target(s.phase[t].o)]))
  {
    var s' := s.(tokens := s.tokens - {t}, phase := s.phase[t := Target(s.phase[t].o)]);
    Parts(s);
    assert TaskOk(s, t) && DebtOk(s, t);
    EndQueues(s, s', t);
    OwnTasks(s, s', t);
    PhaseDebts(s, s', t);
    Parts(s');
  }

  lemma EndQueues(s: State, s': State, t: nat)
    requires Mutexes(s) && Conds(s) && t in s.phase && (s.phase[t].Waits? || s.phase[t].Woken?) && Granted(s, t, s.phase[t].o)
    requires s' == s.(tokens := s.tokens - {t}, phase := s.phase[t := Target(s.phase[t].o)])
    ensures Mutexes(s') && Conds(s')
  {
    forall m | m in s'.mutexes ensures MutexOk(s', m) {
      assert MutexOk(s, m);
    }
    forall c | c in s'.conds ensures CondOk(s', c) {
      assert CondOk(s, c);
    }
  }

  // ---------------------------------------------------------------- whole runs

  lemma StepInv(s: State, a: Action)
    requires Inv(s) && Proper(s, a)
    ensures Inv(Next(s, a))
  {
    if a.t in s.phase && Next(s, a) != s {
      if a.Lock? || a.TryLock? || a.Unlock? || a.Release? {
        MutexStep(s, a);
      } else {
        CondStep(s, a);
      }
    }
  }

  lemma MutexStep(s: State, a: Action)
    requires Inv(s) && Proper(s, a) && a.t in s.phase && Next(s, a) != s
    requires a.Lock? || a.TryLock? || a.Unlock? || a.Release?
    ensures Inv(Next(s, a))
  {
    match a {
      case Lock(t, m) => LockInv(s, t, m);
      case TryLock(t, m) => LockInv(s, t, m);
      case Unlock(t, m) => UnlockInv(s, t, m);
      case Release(t) => ReleaseInv(s, t);
    }
  }

  lemma UnlockInv(s: State, t: nat, m: nat)
    requires Inv(s) && t in s.phase && m in s.mutexes && s.phase[t].Free?
    ensures Inv(Next(s, Unlock(t, m)))
  {
    HandInv(s, t, m, if s.mutexes[m].waiters == [] then Free else Unlocking(s.mutexes[m].waiters[0]));
  }

  lemma ReleaseInv(s: State, t: nat)
    requires Inv(s) && t in s.phase && s.phase[t].Publishing? && s.phase[t].m in s.mutexes
    ensures Inv(Next(s, Release(t)))
  {
    var p := s.phase[t];
    HandInv(s, t, p.m, Releasing(p.c, p.m, HeadOf(s.mutexes[p.m].waiters)));
  }

  lemma CondStep(s: State, a: Action)
    requires Inv(s) && Proper(s, a) && a.t in s.phase && Next(s, a) != s
    requires !a.Lock? && !a.TryLock? && !a.Unlock? && !a.Release?
    ensures Inv(Next(s, a))
  {
    match a {
      case Enter(t, c, m) => EnterInv(s, t, c, m);
      case Leave(t) => LeaveInv(s, t);
      case Signal(t, c, all) => SignalInv(s, t, c, all);
      case Unpark(t) => UnparkInv(s, t);
      case Park(t) => SleepInv(s, t);
      case Resume(t) => SleepInv(s, t);
    }
  }

  /** The steps of a task that waits: it parks, passes on a token, or resumes. */
  lemma SleepInv(s: State, t: nat)
    requires Inv(s) && t in s.phase && (s.phase[t].Waits? || s.phase[t].Woken?)
    ensures Inv(Next(s, if s.phase[t].Woken? then Resume(t) else Park(t)))
  {
    assert TaskOk(s, t);
    if s.phase[t].Waits? && t !in s.tokens {
      ParkInv(s, t);
    } else {
      EndInv(s, t);
      assert s.phase[t].Woken? ==> s.tokens - {t} == s.tokens;
    }
  }

  ghost function Start(tasks: set<nat>, mutexes: set<nat>, conds: set<nat>): State {
    State(map t | t in tasks :: Free, map m | m in mutexes :: Mutex(false, NONE, [], [], []), map c | c in conds :: Cond(NONE, []), {}, map[])
  }

  ghost function Run(s: State, actions: seq<Action>): State {
    if actions == [] then s else Next(Run(s, actions[..|actions| - 1]), actions[|actions| - 1])
  }

  ghost predicate AllProper(s: State, actions: seq<Action>) {
    forall i :: 0 <= i < |actions| ==> Proper(Run(s, actions[..i]), actions[i])
  }

  /** The invariant holds after every run, of any number of tasks, mutexes and conditions. */
  lemma {:induction false} RunInv(tasks: set<nat>, mutexes: set<nat>, conds: set<nat>, actions: seq<Action>)
    requires AllProper(Start(tasks, mutexes, conds), actions)
    ensures Inv(Run(Start(tasks, mutexes, conds), actions))
  {
    if actions != [] {
      var n := |actions| - 1;
      assert forall i :: 0 <= i < n ==> actions[..n][..i] == actions[..i];
      RunInv(tasks, mutexes, conds, actions[..n]);
      StepInv(Run(Start(tasks, mutexes, conds), actions[..n]), actions[n]);
    }
  }

  // ---------------------------------------------------------------- what it promises

  /** The step by which `mutex_lock` returns: at once, past a token, or after a wake-up. */
  predicate ReturnsFrom(s: State, a: Action, m: nat) {
    && a.t in s.phase && Next(s, a) != s && a.t in Next(s, a).phase && Next(s, a).phase[a.t].Free?
    && match a
       case Lock(_, k) => k == m
       case Park(_) => s.phase[a.t] == Waits(OnMutex(m))
       case Resume(_) => s.phase[a.t] == Woken(OnMutex(m))
       case _ => false
  }

  /** A blocked task is still queued, or some task is on its way to unpark it; never neither, never both. */
  lemma NoLostWakeup(s: State, t: nat)
    requires Inv(s) && t in s.phase && s.phase[t].Parked?
    ensures InQueue(s, t, s.phase[t].o) <==> !exists a :: a in s.phase && Owes(s.phase[a]) == t
    ensures t !in s.tokens
  {
    assert TaskOk(s, t);
    if t in s.owedBy {
      assert s.owedBy[t] in s.phase && Owes(s.phase[s.owedBy[t]]) == t;
    } else {
      forall a | a in s.phase ensures Owes(s.phase[a]) != t {
        assert DebtOk(s, a);
      }
    }
  }

  /** Handoffs go in the order of arrival, waiters imply a locked mutex, and a free mutex has no owner. */
  lemma HandoffOrder(s: State, m: nat)
    requires Inv(s) && m in s.mutexes
    ensures var x := s.mutexes[m];
      && x.served <= x.came && x.came[|x.served|..] == x.waiters
      && (x.waiters != [] ==> x.locked) && (x.locked <==> x.owner != NONE)
  {
    assert MutexOk(s, m);
  }

  /** `w` is in `condvar_wait(c, m)`: it has entered and nobody has dequeued it or it sleeps on. */
  predicate InCondWait(p: Phase, c: nat, m: nat) {
    p == Publishing(c, m) || (p.Releasing? && p.c == c && p.m == m) || p == Waits(OnCond(c, m)) || p == Parked(OnCond(c, m))
  }

  /**
   Release and wait are one step to everybody else: whenever another task owns the mutex, or
   anybody may signal, each waiter is queued on the condition or already dequeued and woken
   or about to be.
   */
  lemma AtomicWait(s: State, w: nat, c: nat, m: nat)
    requires Inv(s) && w in s.phase && InCondWait(s.phase[w], c, m)
    ensures c in s.conds && (w in s.conds[c].waiters || w in s.tokens || exists a :: a in s.phase && Owes(s.phase[a]) == w)
    ensures s.conds[c].holder == NONE ==> s.phase[w].Waits? || s.phase[w].Parked?
  {
    assert TaskOk(s, w);
    if w in s.owedBy {
      assert Owes(s.phase[s.owedBy[w]]) == w;
    }
  }

  /** A signal that dequeues nobody finds every waiter already on its way. */
  lemma SignalMisses(s: State, t: nat, c: nat, all: bool, w: nat, m: nat)
    requires Inv(s) && CanSignal(s, t, c, all) && s.conds[c].waiters == []
    requires w in s.phase && InCondWait(s.phase[w], c, m)
    ensures w in s.tokens || exists a :: a in s.phase && Owes(s.phase[a]) == w
  {
    AtomicWait(s, w, c, m);
  }

  /** A condition wait ends in `mutex_lock`, so it returns as the owner. */
  lemma CondWaitRelocks(s: State, t: nat, c: nat, m: nat)
    requires Inv(s) && t in s.phase && (s.phase[t] == Woken(OnCond(c, m)) || (s.phase[t] == Waits(OnCond(c, m)) && t in s.tokens && t >= IDLE_TASKS))
    ensures var a := if s.phase[t].Woken? then Resume(t) else Park(t);
      var s' := Next(s, a);
      s'.phase[t] == Locks(m) && (Next(s', Lock(t, m)).phase[t].Free? ==> Next(s', Lock(t, m)).mutexes[m].owner == t)
  {
    EndLocks(s, t, c, m);
    var s' := Next(s, if s.phase[t].Woken? then Resume(t) else Park(t));
    LockedOkAt(s', t, m);
  }

  lemma EndLocks(s: State, t: nat, c: nat, m: nat)
    requires Inv(s) && t in s.phase && (s.phase[t] == Woken(OnCond(c, m)) || (s.phase[t] == Waits(OnCond(c, m)) && t in s.tokens && t >= IDLE_TASKS))
    ensures var s' := Next(s, if s.phase[t].Woken? then Resume(t) else Park(t));
      Inv(s') && t in s'.phase && s'.phase[t] == Locks(m) && m in s'.mutexes
  {
    WaitThere(s, t);
    EndPhase(s, t);
    SleepInv(s, t);
  }

  lemma EndPhase(s: State, t: nat)
    requires t in s.phase && (s.phase[t].Woken? || (s.phase[t].Waits? && t in s.tokens))
    ensures var s' := Next(s, if s.phase[t].Woken? then Resume(t) else Park(t));
      s'.mutexes == s.mutexes && t in s'.phase && s'.phase[t] == Target(s.phase[t].o)
  {
  }

  lemma WaitThere(s: State, t: nat)
    requires Inv(s) && t in s.phase && (s.phase[t].Waits? || s.phase[t].Woken?)
    ensures s.phase[t].o.m in s.mutexes
  {
    assert TaskOk(s, t);
  }

  lemma LockedOkAt(s: State, t: nat, m: nat)
    requires Inv(s) && t in s.phase && s.phase[t] == Locks(m)
    ensures m in s.mutexes && (Locked(s, t, m).phase[t].Free? ==> Locked(s, t, m).mutexes[m].owner == t)
  {
    assert TaskOk(s, t) && MutexOk(s, m);
    LockedOk(s, t, m);
  }

  /**
   Park returns at once for an idle task, so an idle task that locks a held mutex comes back
   without owning it and is still queued: here task 0, with the mutex held by task 5.
   */
  lemma IdleReturnsUnowned()
    ensures var s := State(map[0 := Free, 5 := Free], map[7 := Mutex(true, 5, [], [], [])], map[], {}, map[]);
      var s' := Next(Next(s, Lock(0, 7)), Park(0));
      && Inv(s) && !Proper(s, Lock(0, 7))
      && s'.phase[0].Free? && s'.mutexes[7].owner == 5 && 0 in s'.mutexes[7].waiters
  {
  }

  /** The steps of idle tasks that block are exactly those that break the invariant. */
  lemma StepExact(s: State, a: Action)
    requires Inv(s)
    ensures Inv(Next(s, a)) <==> Proper(s, a)
  {
    if Proper(s, a) {
      StepInv(s, a);
    } else {
      assert TaskOk(s, a.t);
      assert a.Lock? ==> MutexOk(s, a.m);
      assert Blocking(Next(s, a).phase[a.t]);
    }
  }

  /** Exactly when an idle task's `mutex_lock` returns as owner: when nobody else held the mutex. */
  lemma IdleExact(s: State, t: nat, m: nat)
    requires Inv(s) && t in s.phase && t < IDLE_TASKS && s.phase[t].Free? && m in s.mutexes
    ensures var s1 := Next(s, Lock(t, m));
      var s2 := if s1.phase[t].Free? then s1 else Next(s1, Park(t));
      s2.phase[t].Free? && (s2.mutexes[m].owner == t <==> !s.mutexes[m].locked || s.mutexes[m].owner == t)
  {
    assert MutexOk(s, m) && TaskOk(s, t);
    LockedOk(s, t, m);
  }

  /** `condvar_wait` with no other region in between, up to its second `mutex_lock`. */
  function CondWait(s: State, t: nat, c: nat, m: nat): State {
    var s1 := Next(Next(s, Enter(t, c, m)), Release(t));
    Next(Next(Next(s1, Unpark(t)), Leave(t)), Park(t))
  }

  /** `t` has released the mutex and holds the condition's lock; it owes `due` a wake-up. */
  ghost predicate Between(s: State, t: nat, c: nat, m: nat, due: int) {
    && t in s.phase && s.phase[t] == Releasing(c, m, due) && t !in s.tokens && due != t && (due != NONE ==> due in s.phase)
    && c in s.conds && t in s.conds[c].waiters && m in s.mutexes && s.mutexes[m].owner != t
  }

  lemma WaitReleases(s: State, t: nat, c: nat, m: nat)
    requires Inv(s) && Next(s, Enter(t, c, m)) != s
    ensures Between(Next(Next(s, Enter(t, c, m)), Release(t)), t, c, m, HeadOf(s.mutexes[m].waiters))
  {
    FreeFacts(s, t, m);
    ReleaseFacts(s, t, c, m);
  }

  lemma FreeFacts(s: State, t: nat, m: nat)
    requires Inv(s) && t in s.phase && s.phase[t].Free? && m in s.mutexes
    ensures t !in s.tokens && forall w :: w in s.mutexes[m].waiters ==> w in s.phase && w != t
  {
    assert MutexOk(s, m) && TaskOk(s, t);
  }

  lemma ReleaseFacts(s: State, t: nat, c: nat, m: nat)
    requires Next(s, Enter(t, c, m)) != s && m in s.mutexes && t !in s.tokens
    requires forall w :: w in s.mutexes[m].waiters ==> w in s.phase && w != t
    ensures Between(Next(Next(s, Enter(t, c, m)), Release(t)), t, c, m, HeadOf(s.mutexes[m].waiters))
  {
    var s1 := Next(s, Enter(t, c, m));
    assert s1.conds[c].waiters[|s1.conds[c].waiters| - 1] == t;
    var x := s.mutexes[m];
    if x.waiters != [] {
      assert x.waiters[0] in x.waiters;
    }
  }

  lemma WaitPays(s: State, t: nat, c: nat, m: nat, due: int)
    requires Between(s, t, c, m, due)
    ensures Between(Next(s, Unpark(t)), t, c, m, NONE)
  {
  }

  /** Only an idle task passes the park; it goes on to take the mutex while still queued on the condition. */
  lemma IdleWaitExact(s: State, t: nat, c: nat, m: nat)
    requires Inv(s) && Next(s, Enter(t, c, m)) != s
    ensures var s' := CondWait(s, t, c, m);
      && c in s'.conds && t in s'.conds[c].waiters && m in s'.mutexes && s'.mutexes[m].owner != t && t in s'.phase
      && s'.phase[t] == if t < IDLE_TASKS then Locks(m) else Parked(OnCond(c, m))
  {
    var s1 := Next(Next(s, Enter(t, c, m)), Release(t));
    WaitReleases(s, t, c, m);
    WaitPays(s1, t, c, m, HeadOf(s.mutexes[m].waiters));
    WaitParks(Next(s1, Unpark(t)), t, c, m);
  }

  lemma WaitParks(s: State, t: nat, c: nat, m: nat)
    requires Between(s, t, c, m, NONE)
    ensures var s' := Next(Next(s, Leave(t)), Park(t));
      && c in s'.conds && t in s'.conds[c].waiters && m in s'.mutexes && s'.mutexes[m].owner != t && t in s'.phase
      && s'.phase[t] == if t < IDLE_TASKS then Locks(m) else Parked(OnCond(c, m))
  {
  }
}
