/**
 Who holds a mutex.  `mutex_unlock` and `condvar_wait` do not ask who calls them, so mutual
 exclusion depends on the callers.  A task holds a mutex from its return from `mutex_lock` or
 `mutex_trylock` until it calls `mutex_unlock`, or `condvar_wait` does so for it; one that was
 handed the mutex and has not returned yet is coming to hold it.
 */
module Ownership {
  import opened Sync

  /** The mutex a task in that phase waits for, if any. */
  function AwaitedMutex(p: Phase): int {
    if (p.Waits? || p.Parked? || p.Woken?) && p.o.OnMutex? then p.o.m else NONE
  }

  /** `t` was handed the mutex and is on its way out of `mutex_lock`. */
  ghost predicate Coming(s: State, t: nat, m: nat) {
    t in s.phase && AwaitedMutex(s.phase[t]) == m && m in s.mutexes && t !in s.mutexes[m].waiters
  }

  /** `t` returns from `mutex_lock` or `mutex_trylock` by this step. */
  predicate Takes(s: State, a: Action, m: nat) {
    ReturnsFrom(s, a, m) || (a.TryLock? && a.m == m && Next(s, a) != s)
  }

  /** `t` calls `mutex_unlock`, or `condvar_wait` does so for it. */
  predicate Gives(s: State, a: Action, m: nat) {
    && a.t in s.phase && m in s.mutexes
    && ((a.Unlock? && a.m == m && s.phase[a.t].Free?) || (a.Release? && s.phase[a.t].Publishing? && s.phase[a.t].m == m))
  }

  /** Who holds which mutex after the step. */
  ghost function Held(s: State, held: set<(nat, nat)>, a: Action): set<(nat, nat)> {
    held
    - (set m | m in s.mutexes && Gives(s, a, m) :: (a.t, m))
    + (set m | m in s.mutexes && Takes(s, a, m) :: (a.t, m))
  }

  ghost predicate Has(s: State, held: set<(nat, nat)>, t: nat, m: nat) { (t, m) in held || Coming(s, t, m) }

  /** The recorded owner of a mutex is exactly who holds it or is coming to. */
  ghost predicate OwnerOk(s: State, held: set<(nat, nat)>, t: nat, m: nat) {
    Has(s, held, t, m) <==> m in s.mutexes && s.mutexes[m].owner == t
  }

  /** Whoever is about to release a mutex for a condition wait holds it. */
  ghost predicate Publishers(s: State, held: set<(nat, nat)>) {
    forall t :: t in s.phase && s.phase[t].Publishing? ==> (t, s.phase[t].m) in held
  }

  ghost predicate Owners(s: State, held: set<(nat, nat)>) {
    (forall t: nat, m: nat :: OwnerOk(s, held, t, m)) && Publishers(s, held)
  }

  /**
   A free mutex may be unlocked by anybody; a locked one by its owner, or by anybody if it
   goes back to its owner, who is locking it a second time.
   */
  predicate MayPass(x: Mutex, t: nat) { !x.locked || x.owner == t || HeadOf(x.waiters) == x.owner }

  /** Only the owner of a mutex waits on a condition with it. */
  predicate EntersOwning(s: State, a: Action) {
    a.Enter? && Next(s, a) != s ==> s.mutexes[a.m].owner == a.t
  }

  predicate Rightful(s: State, a: Action) {
    (a.Unlock? && Gives(s, a, a.m) ==> MayPass(s.mutexes[a.m], a.t)) && EntersOwning(s, a)
  }

  // ---------------------------------------------------------------- one step

  /** A free mutex gets an owner, by a task that waited for none. */
  ghost predicate Grabs(s: State, s': State, t: nat, m: nat) {
    && m in s.mutexes && s.mutexes[m].owner == NONE && s'.mutexes == s.mutexes[m := s.mutexes[m].(locked := true, owner := t)]
    && t in s.phase && t in s'.phase && s'.phase == s.phase[t := s'.phase[t]]
    && AwaitedMutex(s.phase[t]) == NONE == AwaitedMutex(s'.phase[t])
  }

  lemma GrabAt(s: State, held: set<(nat, nat)>, s': State, t: nat, m: nat, u: nat, k: nat)
    requires Grabs(s, s', t, m) && OwnerOk(s, held, u, k)
    ensures OwnerOk(s', held + {(t, m)}, u, k)
  {
  }

  /** Nobody gets or loses a mutex: owners stay, and so does who is coming. */
  ghost predicate Leaves(s: State, s': State) {
    && s'.mutexes.Keys == s.mutexes.Keys && s'.phase.Keys == s.phase.Keys
    && (forall m :: m in s.mutexes ==> s'.mutexes[m].owner == s.mutexes[m].owner)
    && (forall t: nat, m: nat :: Coming(s', t, m) <==> Coming(s, t, m))
  }

  lemma LeaveAt(s: State, held: set<(nat, nat)>, s': State, t: nat, m: nat)
    requires Leaves(s, s') && OwnerOk(s, held, t, m)
    ensures OwnerOk(s', held, t, m)
  {
  }

  /** What a locking step is. */
  lemma LockKinds(s: State, t: nat, m: nat)
    requires Inv(s) && t in s.phase && m in s.mutexes && (s.phase[t].Free? || s.phase[t] == Locks(m))
    ensures var s' := Locked(s, t, m); if !s.mutexes[m].locked then Grabs(s, s', t, m) else Leaves(s, s')
  {
    assert MutexOk(s, m) && TaskOk(s, t);
    LockedOk(s, t, m);
    var s' := Locked(s, t, m);
    if s.mutexes[m].locked {
      forall u: nat, k: nat ensures Coming(s', u, k) <==> Coming(s, u, k) {
      }
    }
  }

  /** What passing a mutex on does: its first waiter, if any, leaves the queue and owns it. */
  ghost predicate Passes(s: State, s': State, t: nat, m: nat) {
    && m in s.mutexes && s'.mutexes == s.mutexes[m := Passed(s.mutexes[m])] && t in s.phase && t in s'.phase && s'.phase == s.phase[t := s'.phase[t]]
    && AwaitedMutex(s.phase[t]) == NONE == AwaitedMutex(s'.phase[t])
    && var x := s.mutexes[m];
       && (x.locked <==> x.owner != NONE) && (x.waiters != [] ==> x.locked) && (x.locked ==> x.owner in s.phase)
       && (x.waiters != [] ==> x.waiters[0] in s.phase && Queued(s.phase[x.waiters[0]], OnMutex(m)) && x.waiters[0] !in x.waiters[1..])
  }

  lemma GivesPasses(s: State, a: Action, m: nat)
    requires Inv(s) && Gives(s, a, m)
    ensures Passes(s, Next(s, a), a.t, m)
  {
    assert MutexOk(s, m) && TaskOk(s, a.t);
    var x := s.mutexes[m];
    if x.waiters != [] {
      assert x.waiters[0] in x.waiters;
    }
  }

  /** Who else is coming to hold it: the first waiter besides those that were. */
  lemma PassComing(s: State, s': State, t: nat, m: nat, u: nat, k: nat)
    requires Passes(s, s', t, m)
    ensures Coming(s', u, k) <==> Coming(s, u, k) || (k == m && u == HeadOf(s.mutexes[m].waiters))
  {
    var x := s.mutexes[m];
    if x.waiters != [] {
      assert x.waiters == [x.waiters[0]] + x.waiters[1..];
    }
  }

  lemma GiveHeld(s: State, held: set<(nat, nat)>, a: Action, m: nat)
    requires Gives(s, a, m)
    ensures Held(s, held, a) == held - {(a.t, m)}
  {
    forall k | k in s.mutexes ensures !Takes(s, a, k) && (Gives(s, a, k) <==> k == m) {
    }
  }

  lemma PassAt(s: State, held: set<(nat, nat)>, s': State, t: nat, m: nat, u: nat, k: nat)
    requires Passes(s, s', t, m) && OwnerOk(s, held, u, k) && OwnerOk(s, held, t, m) && MayPass(s.mutexes[m], t)
    ensures OwnerOk(s', held - {(t, m)}, u, k)
  {
    PassComing(s, s', t, m, u, k);
  }

  /** Otherwise the owner still has the mutex, and is its owner no longer. */
  lemma RobbedAt(s: State, held: set<(nat, nat)>, s': State, t: nat, m: nat)
    requires Passes(s, s', t, m) && !MayPass(s.mutexes[m], t) && 0 <= s.mutexes[m].owner && OwnerOk(s, held, s.mutexes[m].owner, m)
    ensures !OwnerOk(s', held - {(t, m)}, s.mutexes[m].owner, m)
  {
    PassComing(s, s', t, m, s.mutexes[m].owner, m);
  }

  /** A task past its wait has the mutex it waited for; nobody else is concerned. */
  ghost predicate Arrives(s: State, s': State, t: nat, m: nat) {
    && s'.mutexes == s.mutexes && t in s.phase && t in s'.phase && s'.phase == s.phase[t := s'.phase[t]]
    && Coming(s, t, m) && AwaitedMutex(s'.phase[t]) == NONE
  }

  lemma ArriveAt(s: State, held: set<(nat, nat)>, s': State, t: nat, m: nat, u: nat, k: nat)
    requires Arrives(s, s', t, m) && OwnerOk(s, held, u, k)
    ensures OwnerOk(s', held + {(t, m)}, u, k)
  {
  }

  /** Only phases change, and nobody begins or ends to wait for a mutex. */
  lemma PhasesLeave(s: State, s': State)
    requires s'.mutexes == s.mutexes && s'.phase.Keys == s.phase.Keys
    requires forall t :: t in s.phase ==> AwaitedMutex(s'.phase[t]) == AwaitedMutex(s.phase[t])
    ensures Leaves(s, s')
  {
    forall t: nat, m: nat ensures Coming(s', t, m) <==> Coming(s, t, m) {
    }
  }

  // ---------------------------------------------------------------- every step

  lemma TakeHeld(s: State, held: set<(nat, nat)>, a: Action, m: nat)
    requires Takes(s, a, m) && m in s.mutexes
    ensures Held(s, held, a) == held + {(a.t, m)}
  {
    forall k | k in s.mutexes ensures !Gives(s, a, k) && (Takes(s, a, k) <==> k == m) {
    }
  }

  lemma QuietHeld(s: State, held: set<(nat, nat)>, a: Action)
    requires forall m :: m in s.mutexes ==> !Gives(s, a, m) && !Takes(s, a, m)
    ensures Held(s, held, a) == held
  {
  }

  /** A step that takes a mutex grabs it free, or ends a wait for it. */
  lemma TakesKinds(s: State, a: Action, m: nat)
    requires Inv(s) && Proper(s, a) && Takes(s, a, m)
    ensures m in s.mutexes && (Grabs(s, Next(s, a), a.t, m) || Arrives(s, Next(s, a), a.t, m))
  {
    if a.Lock? || a.TryLock? {
      LockKinds(s, a.t, m);
      LockTakes(s, a.t, m);
    } else {
      assert TaskOk(s, a.t);
    }
  }

  /** Whoever returns from locking at once found the mutex free. */
  lemma LockTakes(s: State, t: nat, m: nat)
    requires Inv(s) && t in s.phase && m in s.mutexes && (s.phase[t].Free? || s.phase[t] == Locks(m))
    ensures t in Locked(s, t, m).phase && (Locked(s, t, m).phase[t].Free? <==> !s.mutexes[m].locked)
  {
    assert MutexOk(s, m) && TaskOk(s, t);
    LockedOk(s, t, m);
  }

  /** A step that neither gives nor takes one leaves owners alone. */
  lemma QuietKinds(s: State, a: Action)
    requires Inv(s) && Proper(s, a) && forall m :: m in s.mutexes ==> !Gives(s, a, m) && !Takes(s, a, m)
    ensures Leaves(s, Next(s, a))
  {
    if Next(s, a) == s {
      PhasesLeave(s, s);
    } else if a.Lock? || a.TryLock? {
      LockKinds(s, a.t, a.m);
      LockTakes(s, a.t, a.m);
    } else if a.Park? || a.Resume? {
      SleepKinds(s, a);
    } else {
      OtherKinds(s, a);
    }
  }

  lemma AwaitedThere(s: State, t: nat)
    requires Inv(s) && t in s.phase
    ensures AwaitedMutex(s.phase[t]) == NONE || AwaitedMutex(s.phase[t]) in s.mutexes
  {
    assert TaskOk(s, t);
  }

  /** A task that waits for a mutex and does not take it goes on waiting. */
  lemma SleepKinds(s: State, a: Action)
    requires Inv(s) && (a.Park? || a.Resume?) && Next(s, a) != s && forall m :: m in s.mutexes ==> !Takes(s, a, m)
    ensures Leaves(s, Next(s, a))
  {
    AwaitedThere(s, a.t);
    SleepLeaves(s, a);
  }

  lemma SleepLeaves(s: State, a: Action)
    requires (a.Park? || a.Resume?) && a.t in s.phase && Next(s, a) != s && forall m :: m in s.mutexes ==> !Takes(s, a, m)
    requires AwaitedMutex(s.phase[a.t]) == NONE || AwaitedMutex(s.phase[a.t]) in s.mutexes
    ensures Leaves(s, Next(s, a))
  {
    SleepPhases(s, a);
    PhasesLeave(s, Next(s, a));
  }

  lemma SleepPhases(s: State, a: Action)
    requires (a.Park? || a.Resume?) && a.t in s.phase && Next(s, a) != s && forall m :: m in s.mutexes ==> !Takes(s, a, m)
    requires AwaitedMutex(s.phase[a.t]) == NONE || AwaitedMutex(s.phase[a.t]) in s.mutexes
    ensures var s' := Next(s, a);
      s'.phase.Keys == s.phase.Keys && forall t :: t in s.phase ==> AwaitedMutex(s'.phase[t]) == AwaitedMutex(s.phase[t])
  {
    var p := s.phase[a.t];
    if AwaitedMutex(p) != NONE {
      assert !Takes(s, a, AwaitedMutex(p));
    }
  }

  lemma OtherKinds(s: State, a: Action)
    requires Inv(s) && (a.Enter? || a.Leave? || a.Signal? || a.Unpark?) && Next(s, a) != s
    ensures Leaves(s, Next(s, a))
  {
    if a.Unpark? {
      Debt(s, a.t);
      UnparkSame(s, a.t, Owes(s.phase[a.t]));
    } else {
      CondSame(s, a);
    }
    PhasesLeave(s, Next(s, a));
  }

  lemma UnparkSame(s: State, t: nat, n: nat)
    requires t in s.phase && n in s.phase && n != t && Owes(s.phase[t]) == n && (s.phase[n].Waits? || s.phase[n].Parked?)
    ensures var s' := Unparked(s, t, n);
      s'.mutexes == s.mutexes && s'.phase.Keys == s.phase.Keys && forall u :: u in s.phase ==> AwaitedMutex(s'.phase[u]) == AwaitedMutex(s.phase[u])
  {
  }

  lemma CondSame(s: State, a: Action)
    requires (a.Enter? || a.Leave? || a.Signal?) && Next(s, a) != s
    ensures var s' := Next(s, a);
      s'.mutexes == s.mutexes && s'.phase.Keys == s.phase.Keys && forall u :: u in s.phase ==> AwaitedMutex(s'.phase[u]) == AwaitedMutex(s.phase[u])
  {
  }

  /** Only entering a condition wait puts a task in front of its release. */
  lemma PublishKept(s: State, a: Action, t: nat)
    requires t in Next(s, a).phase && Next(s, a).phase[t].Publishing?
    ensures t in s.phase
    ensures s.phase[t] == Next(s, a).phase[t] || (t == a.t && a.Enter? && Next(s, a) != s && Next(s, a).phase[t].m == a.m)
    ensures !Gives(s, a, Next(s, a).phase[t].m) || t != a.t
  {
  }

  // the owners after each kind of step

  lemma GiveOwners(s: State, held: set<(nat, nat)>, s': State, t: nat, m: nat)
    requires Passes(s, s', t, m) && Owners(s, held)
    ensures (forall u: nat, k: nat :: OwnerOk(s', held - {(t, m)}, u, k)) <==> MayPass(s.mutexes[m], t)
  {
    if MayPass(s.mutexes[m], t) {
      forall u: nat, k: nat ensures OwnerOk(s', held - {(t, m)}, u, k) {
        assert OwnerOk(s, held, u, k) && OwnerOk(s, held, t, m);
        PassAt(s, held, s', t, m, u, k);
      }
    } else {
      assert OwnerOk(s, held, s.mutexes[m].owner, m);
      RobbedAt(s, held, s', t, m);
    }
  }

  lemma TakeOwners(s: State, held: set<(nat, nat)>, s': State, t: nat, m: nat)
    requires (Grabs(s, s', t, m) || Arrives(s, s', t, m)) && Owners(s, held)
    ensures forall u: nat, k: nat :: OwnerOk(s', held + {(t, m)}, u, k)
  {
    forall u: nat, k: nat ensures OwnerOk(s', held + {(t, m)}, u, k) {
      assert OwnerOk(s, held, u, k);
      if Grabs(s, s', t, m) {
        GrabAt(s, held, s', t, m, u, k);
      } else {
        ArriveAt(s, held, s', t, m, u, k);
      }
    }
  }

  lemma LeaveOwners(s: State, held: set<(nat, nat)>, s': State)
    requires Leaves(s, s') && Owners(s, held)
    ensures forall u: nat, k: nat :: OwnerOk(s', held, u, k)
  {
    forall u: nat, k: nat ensures OwnerOk(s', held, u, k) {
      assert OwnerOk(s, held, u, k);
      LeaveAt(s, held, s', u, k);
    }
  }

  /** A condition wait that was entered by the owner still has the mutex to release. */
  lemma ReleaseOwns(s: State, held: set<(nat, nat)>, t: nat)
    requires Owners(s, held) && t in s.phase && s.phase[t].Publishing?
    ensures s.phase[t].m in s.mutexes && s.mutexes[s.phase[t].m].owner == t
  {
    assert OwnerOk(s, held, t, s.phase[t].m);
  }

  lemma PublishExact(s: State, held: set<(nat, nat)>, a: Action)
    requires Owners(s, held)
    ensures Publishers(Next(s, a), Held(s, held, a)) <==> EntersOwning(s, a)
  {
    var s', held' := Next(s, a), Held(s, held, a);
    if EntersOwning(s, a) {
      forall t | t in s'.phase && s'.phase[t].Publishing? ensures (t, s'.phase[t].m) in held' {
        PublishKept(s, a, t);
        assert OwnerOk(s, held, t, s'.phase[t].m);
      }
    } else {
      assert OwnerOk(s, held, a.t, a.m);
      assert s'.phase[a.t] == Publishing(a.c, a.m);
      assert forall m :: m in s.mutexes ==> !Takes(s, a, m);
    }
  }

  lemma PairsExact(s: State, held: set<(nat, nat)>, a: Action)
    requires Inv(s) && Proper(s, a) && Owners(s, held)
    ensures (forall t: nat, m: nat :: OwnerOk(Next(s, a), Held(s, held, a), t, m)) <==>
      (a.Unlock? && Gives(s, a, a.m) ==> MayPass(s.mutexes[a.m], a.t))
  {
    var s' := Next(s, a);
    if m :| m in s.mutexes && Gives(s, a, m) {
      GivesPasses(s, a, m);
      GiveHeld(s, held, a, m);
      GiveOwners(s, held, s', a.t, m);
      if a.Release? {
        ReleaseOwns(s, held, a.t);
      }
    } else if m :| m in s.mutexes && Takes(s, a, m) {
      TakesKinds(s, a, m);
      TakeHeld(s, held, a, m);
      TakeOwners(s, held, s', a.t, m);
    } else {
      QuietKinds(s, a);
      QuietHeld(s, held, a);
      LeaveOwners(s, held, s');
    }
  }

  /**
   The owner a mutex records is exactly who holds it or is coming to, after a step, if and
   only if the step was rightful.
   */
  lemma OwnersExact(s: State, held: set<(nat, nat)>, a: Action)
    requires Inv(s) && Proper(s, a) && Owners(s, held)
    ensures Owners(Next(s, a), Held(s, held, a)) <==> Rightful(s, a)
  {
    PublishExact(s, held, a);
    PairsExact(s, held, a);
  }

  // ---------------------------------------------------------------- whole runs

  /** Who holds which mutex after a run that starts with none held. */
  ghost function HeldAfter(s: State, actions: seq<Action>): set<(nat, nat)> {
    if actions == [] then {} else
      var n := |actions| - 1;
      Held(Run(s, actions[..n]), HeldAfter(s, actions[..n]), actions[n])
  }

  ghost predicate AllRightful(s: State, actions: seq<Action>) {
    forall i :: 0 <= i < |actions| ==> Rightful(Run(s, actions[..i]), actions[i])
  }

  lemma OneHolder(s: State, held: set<(nat, nat)>)
    requires Owners(s, held)
    ensures forall t, u, m :: (t, m) in held && (u, m) in held ==> t == u
  {
    forall t, u, m | (t, m) in held && (u, m) in held ensures t == u {
      assert OwnerOk(s, held, t, m) && OwnerOk(s, held, u, m);
    }
  }

  lemma NoneHeld(tasks: set<nat>, mutexes: set<nat>, conds: set<nat>)
    ensures Owners(Start(tasks, mutexes, conds), {})
  {
  }

  lemma Prefix(s: State, actions: seq<Action>)
    requires actions != [] && AllProper(s, actions) && AllRightful(s, actions)
    ensures var n := |actions| - 1;
      && AllProper(s, actions[..n]) && AllRightful(s, actions[..n])
      && Proper(Run(s, actions[..n]), actions[n]) && Rightful(Run(s, actions[..n]), actions[n])
  {
    var n := |actions| - 1;
    assert forall i :: 0 <= i < n ==> actions[..n][..i] == actions[..i];
  }

  /**
   Mutual exclusion.  Over every run in which only its owner unlocks a mutex or waits with
   it, whoever holds one is its owner, so nobody else does.
   */
  lemma {:induction false} Exclusion(tasks: set<nat>, mutexes: set<nat>, conds: set<nat>, actions: seq<Action>)
    requires AllProper(Start(tasks, mutexes, conds), actions) && AllRightful(Start(tasks, mutexes, conds), actions)
    ensures var s := Start(tasks, mutexes, conds); Owners(Run(s, actions), HeldAfter(s, actions))
    ensures var held := HeldAfter(Start(tasks, mutexes, conds), actions);
      forall t, u, m :: (t, m) in held && (u, m) in held ==> t == u
  {
    var s := Start(tasks, mutexes, conds);
    if actions == [] {
      NoneHeld(tasks, mutexes, conds);
    } else {
      var n := |actions| - 1;
      Prefix(s, actions);
      Exclusion(tasks, mutexes, conds, actions[..n]);
      RunInv(tasks, mutexes, conds, actions[..n]);
      OwnersExact(Run(s, actions[..n]), HeldAfter(s, actions[..n]), actions[n]);
    }
    OneHolder(Run(s, actions), HeldAfter(s, actions));
  }

  /** Every return from `mutex_lock`, blocking or not, is by the owner of the mutex. */
  lemma ReturnsOwner(s: State, held: set<(nat, nat)>, a: Action, m: nat)
    requires Inv(s) && Proper(s, a) && Owners(s, held) && ReturnsFrom(s, a, m)
    ensures m in Next(s, a).mutexes && Next(s, a).mutexes[m].locked && Next(s, a).mutexes[m].owner == a.t
  {
    TakesKinds(s, a, m);
    assert OwnerOk(s, held, a.t, m) && MutexOk(s, m);
  }

  /** The owner of a locked mutex stays its owner up to its own `mutex_unlock` or `condvar_wait`. */
  lemma OwnerStays(s: State, held: set<(nat, nat)>, a: Action, m: nat)
    requires Inv(s) && Proper(s, a) && Owners(s, held) && Rightful(s, a) && m in s.mutexes && s.mutexes[m].locked
    ensures m in Next(s, a).mutexes
    ensures Next(s, a).mutexes[m].owner == s.mutexes[m].owner || (Gives(s, a, m) && s.mutexes[m].owner == a.t)
  {
    if k :| k in s.mutexes && Gives(s, a, k) {
      GivesPasses(s, a, k);
      if a.Release? {
        ReleaseOwns(s, held, a.t);
      }
      PassStays(s, Next(s, a), a.t, k, m);
    } else if k :| k in s.mutexes && Takes(s, a, k) {
      TakesKinds(s, a, k);
      TakeStays(s, Next(s, a), a.t, k, m);
      assert MutexOk(s, m);
    } else {
      QuietKinds(s, a);
    }
  }

  lemma PassStays(s: State, s': State, t: nat, k: nat, m: nat)
    requires Passes(s, s', t, k) && MayPass(s.mutexes[k], t) && m in s.mutexes && s.mutexes[m].locked
    ensures m in s'.mutexes && (s'.mutexes[m].owner == s.mutexes[m].owner || (m == k && s.mutexes[m].owner == t))
  {
  }

  lemma TakeStays(s: State, s': State, t: nat, k: nat, m: nat)
    requires (Grabs(s, s', t, k) || Arrives(s, s', t, k)) && m in s.mutexes
    ensures m in s'.mutexes && (s.mutexes[m].owner != NONE ==> s'.mutexes[m].owner == s.mutexes[m].owner)
  {
  }

  /** A run one step longer. */
  lemma RunOne(s: State, actions: seq<Action>, a: Action)
    ensures Run(s, actions + [a]) == Next(Run(s, actions), a)
    ensures HeldAfter(s, actions + [a]) == Held(Run(s, actions), HeldAfter(s, actions), a)
  {
    assert (actions + [a])[..|actions|] == actions;
  }

  /** Task 6 unlocks what task 5 holds, and then both hold it. */
  lemma StrangerUnlocks()
    ensures var s, actions := Start({5, 6}, {0}, {}), [Lock(5, 0)] + [Unlock(6, 0)] + [Lock(6, 0)];
      AllProper(s, actions) && !AllRightful(s, actions) && (5, 0) in HeldAfter(s, actions) && (6, 0) in HeldAfter(s, actions)
  {
    var s := Start({5, 6}, {0}, {});
    var one := [Lock(5, 0)];
    var two := one + [Unlock(6, 0)];
    var three := two + [Lock(6, 0)];
    assert three[..0] == [] && three[..1] == one && three[..2] == two;
    RunOne(s, [], Lock(5, 0));
    assert [] + one == one;
    RunOne(s, one, Unlock(6, 0));
    RunOne(s, two, Lock(6, 0));
    assert Run(s, one).mutexes[0] == Mutex(true, 5, [], [], []) && Run(s, two).mutexes[0] == Mutex(false, NONE, [], [], []);
    assert Takes(s, Lock(5, 0), 0) && (5, 0) in HeldAfter(s, one);
    assert (5, 0) in HeldAfter(s, two);
    assert Takes(Run(s, two), Lock(6, 0), 0);
    assert !Rightful(Run(s, three[..1]), three[1]);
  }
}
