/**
 What signals and broadcasts achieve (`condvar_signal`, `condvar_broadcast`), over whole runs:
 whom they take off a condition's queue, and that each of those is woken.
 */
module Signals {
  import opened Wrappers
  import opened Sync

  /** A run: where it starts and what happens. */
  datatype Trace = Trace(start: State, actions: seq<Action>)

  ghost function At(r: Trace, n: nat): State
    requires n <= |r.actions|
  {
    Run(r.start, r.actions[..n])
  }

  lemma AtStep(r: Trace, n: nat)
    requires n < |r.actions|
    ensures At(r, n + 1) == Next(At(r, n), r.actions[n])
  {
    assert r.actions[..n + 1][..n] == r.actions[..n];
  }

  ghost predicate Sound(r: Trace) { Inv(r.start) && AllProper(r.start, r.actions) }

  /** The same, sealed: most proofs only pass it on. */
  ghost predicate Kept(k: nat, r: Trace)
    decreases k
  {
    if k == 0 then Sound(r) else Kept(k - 1, r)
  }

  ghost predicate Steady(r: Trace) { Kept(|r.actions|, r) }

  lemma {:induction false} Unseal(k: nat, r: Trace)
    ensures Kept(k, r) <==> Sound(r)
  {
    if k > 0 {
      Unseal(k - 1, r);
    }
  }

  lemma {:induction false} SoundAt(r: Trace, n: nat)
    requires Steady(r) && n <= |r.actions|
    ensures Inv(At(r, n))
  {
    Unseal(|r.actions|, r);
    if n == 0 {
      assert r.actions[..0] == [];
    } else {
      SoundAt(r, n - 1);
      AtStep(r, n - 1);
      StepInv(At(r, n - 1), r.actions[n - 1]);
    }
  }

  // ---------------------------------------------------------------- what is said of a run

  /** `w` is queued on condition `c` after `n` steps. */
  ghost predicate QueuedAt(r: Trace, n: nat, c: nat, w: nat)
    requires n <= |r.actions|
  {
    c in At(r, n).conds && w in At(r, n).conds[c].waiters
  }

  /** Step `d` takes `w` off the queue of `c`. */
  ghost predicate Taken(r: Trace, d: nat, c: nat, w: nat)
    requires d < |r.actions|
  {
    QueuedAt(r, d, c, w) && !QueuedAt(r, d + 1, c, w)
  }

  /** Step `u` wakes `w`: it was parked and is no longer, or it has a token it did not have. */
  ghost predicate Wakes(r: Trace, u: nat, w: nat)
    requires u < |r.actions|
  {
    var s, s' := At(r, u), At(r, u + 1);
    && r.actions[u].Unpark? && w in s.phase && w in s'.phase
    && ((s.phase[w].Parked? && s'.phase[w] == Woken(s.phase[w].o)) || (w !in s.tokens && w in s'.tokens))
  }

  /** Some other task than `t` has taken `w` off and is about to wake it. */
  ghost predicate OwedByOther(s: State, t: nat, w: nat) {
    exists a :: a in s.phase && a != t && Owes(s.phase[a]) == w
  }

  ghost predicate WokenIn(r: Trace, d: nat, n: nat, w: nat)
    requires n <= |r.actions|
  {
    exists u :: d < u < n && Wakes(r, u, w)
  }

  /** Between steps `i` and `n` it was taken off, and then woken, unless another signaller took it and has yet to. */
  ghost predicate Served(r: Trace, i: nat, n: nat, t: nat, c: nat, w: nat)
    requires n <= |r.actions|
  {
    exists d :: i <= d < n && Taken(r, d, c, w) && (WokenIn(r, d, n, w) || OwedByOther(At(r, n), t, w))
  }

  /** `t` calls the function at step `i`, which does something, and has not returned before step `n`. */
  ghost predicate Calls(r: Trace, i: nat, n: nat, t: nat, c: nat, all: bool)
    requires n <= |r.actions|
  {
    && i < n && r.actions[i] == Signal(t, c, all) && t in At(r, i).phase && At(r, i).phase[t].Free?
    && c in At(r, i).conds && At(r, i).conds[c].holder == NONE
    && forall m :: i < m < n ==> t in At(r, m).phase && !At(r, m).phase[t].Free?
  }

  // ---------------------------------------------------------------- one step

  ghost predicate Owed(s: State, w: nat) { exists a :: a in s.phase && Owes(s.phase[a]) == w }

  ghost predicate Woke(s: State, s': State, w: nat) {
    && w in s.phase && w in s'.phase
    && ((s.phase[w].Parked? && s'.phase[w] == Woken(s.phase[w].o)) || (w !in s.tokens && w in s'.tokens))
  }

  /** Only a signal takes a waiter off a queue, and it is the head, which it then owes a wake-up. */
  lemma TakenOwed(s: State, a: Action, c: nat, w: nat)
    requires c in s.conds && w in s.conds[c].waiters && !(c in Next(s, a).conds && w in Next(s, a).conds[c].waiters)
    ensures a.t in Next(s, a).phase && Owes(Next(s, a).phase[a.t]) == w && Owed(Next(s, a), w)
  {
    var x := s.conds[c];
    if x.waiters != [] {
      assert x.waiters == [x.waiters[0]] + x.waiters[1..];
    }
  }

  /** A debt stays until it is paid, and paying it wakes. */
  lemma DebtStep(s: State, a: Action, w: nat)
    requires Inv(s) && Owed(s, w)
    ensures Owed(Next(s, a), w) || (a.Unpark? && Woke(s, Next(s, a), w))
  {
    var b :| b in s.phase && Owes(s.phase[b]) == w;
    Debt(s, b);
    if a == Unpark(b) {
      assert TaskOk(s, w);
    } else {
      DebtorStays(s, a, b);
    }
  }

  /** Whoever owes a wake-up does nothing else before it is paid. */
  lemma DebtorStays(s: State, a: Action, b: nat)
    requires Inv(s) && b in s.phase && Owes(s.phase[b]) != NONE && a != Unpark(b)
    ensures b in Next(s, a).phase && Next(s, a).phase[b] == s.phase[b]
  {
    if a.Unpark? {
      NotTheWoken(s, a.t, b);
      UnparkLeaves(s, a.t, b);
    } else {
      OtherLeaves(s, a, b);
    }
  }

  /** A task that is woken was waiting. */
  lemma NotTheWoken(s: State, t: nat, b: nat)
    requires Inv(s) && t in s.phase ==> b in s.phase && !s.phase[b].Waits? && !s.phase[b].Parked?
    ensures Inv(s) && t in s.phase && Owes(s.phase[t]) != NONE ==> Owes(s.phase[t]) != b
  {
    if Inv(s) && t in s.phase && Owes(s.phase[t]) != NONE {
      Debt(s, t);
    }
  }

  lemma UnparkLeaves(s: State, t: nat, b: nat)
    requires b in s.phase && b != t && (t in s.phase && Owes(s.phase[t]) != NONE ==> Owes(s.phase[t]) != b)
    ensures b in Next(s, Unpark(t)).phase && Next(s, Unpark(t)).phase[b] == s.phase[b]
  {
  }

  lemma OtherLeaves(s: State, a: Action, b: nat)
    requires b in s.phase && !a.Unpark? && (a.t == b ==> Owes(s.phase[b]) != NONE)
    ensures b in Next(s, a).phase && Next(s, a).phase[b] == s.phase[b]
  {
  }

  /** Where a task is inside `condvar_broadcast`. */
  predicate Broadcasting(p: Phase, c: nat) { p == Broadcasts(c) || (p.Signalling? && p.all && p.c == c) }

  /** A broadcast goes on until a round of its own finds the queue empty. */
  lemma BroadcastStep(s: State, a: Action, t: nat, c: nat)
    requires Inv(s) && t in s.phase && Broadcasting(s.phase[t], c)
    ensures var s' := Next(s, a);
      && t in s'.phase && (Broadcasting(s'.phase[t], c) || s'.phase[t].Free?)
      && (s'.phase[t].Free? ==> a == Signal(t, c, true) && c in s.conds && s.conds[c].waiters == [])
  {
    if a == Unpark(t) && s.phase[t].Signalling? {
      Debt(s, t);
    } else if s.phase[t].Signalling? {
      DebtorStays(s, a, t);
    } else if a.Unpark? && a.t != t {
      NotTheWoken(s, a.t, t);
      UnparkLeaves(s, a.t, t);
    } else if a.t != t {
      OtherLeaves(s, a, t);
    }
  }

  // ---------------------------------------------------------------- whole calls

  /** `w` was taken off since step `i`, and then woken or is owed it. */
  ghost predicate Handled(r: Trace, i: nat, n: nat, c: nat, w: nat)
    requires n <= |r.actions|
  {
    exists d :: i <= d < n && Taken(r, d, c, w) && (WokenIn(r, d, n, w) || Owed(At(r, n), w))
  }

  lemma HandledStep(r: Trace, i: nat, n: nat, c: nat, w: nat)
    requires Steady(r) && n < |r.actions| && i <= n && (QueuedAt(r, n, c, w) || Handled(r, i, n, c, w))
    ensures QueuedAt(r, n + 1, c, w) || Handled(r, i, n + 1, c, w)
  {
    AtStep(r, n);
    SoundAt(r, n);
    var s, a := At(r, n), r.actions[n];
    if Handled(r, i, n, c, w) {
      var d :| i <= d < n && Taken(r, d, c, w) && (WokenIn(r, d, n, w) || Owed(s, w));
      if WokenIn(r, d, n, w) {
        var u :| d < u < n && Wakes(r, u, w);
        assert WokenIn(r, d, n + 1, w);
      } else {
        DebtStep(s, a, w);
        assert !Owed(At(r, n + 1), w) ==> Wakes(r, n, w) && WokenIn(r, d, n + 1, w);
      }
      assert Taken(r, d, c, w);
    } else if !QueuedAt(r, n + 1, c, w) {
      TakenOwed(s, a, c, w);
      assert Taken(r, n, c, w);
    }
  }

  /** Whoever was queued after `i` steps is still queued after `n`, or has been seen to. */
  lemma {:induction false} DuringCall(r: Trace, i: nat, n: nat, c: nat, w: nat)
    requires Steady(r) && i < n <= |r.actions| && QueuedAt(r, i, c, w)
    ensures QueuedAt(r, n, c, w) || Handled(r, i, n, c, w)
    decreases n
  {
    if n > i + 1 {
      DuringCall(r, i, n - 1, c, w);
    }
    HandledStep(r, i, n - 1, c, w);
  }

  /** At step `n` the call is still in its loop, or its last step found the queue empty. */
  lemma {:induction false} LoopsOn(r: Trace, i: nat, n: nat, t: nat, c: nat)
    requires Steady(r) && n <= |r.actions| && Calls(r, i, n, t, c, true)
    ensures t in At(r, n).phase && (Broadcasting(At(r, n).phase[t], c) || At(r, n).phase[t].Free?)
    ensures At(r, n).phase[t].Free? ==>
      r.actions[n - 1] == Signal(t, c, true) && c in At(r, n - 1).conds && At(r, n - 1).conds[c].waiters == []
    decreases n
  {
    if n > i + 1 {
      LoopsOn(r, i, n - 1, t, c);
      BroadcastAt(r, n - 1, t, c);
    } else {
      AtStep(r, i);
      FirstRound(At(r, i), t, c);
    }
  }

  lemma BroadcastAt(r: Trace, n: nat, t: nat, c: nat)
    requires Steady(r) && n < |r.actions| && t in At(r, n).phase && Broadcasting(At(r, n).phase[t], c)
    ensures t in At(r, n + 1).phase && (Broadcasting(At(r, n + 1).phase[t], c) || At(r, n + 1).phase[t].Free?)
    ensures At(r, n + 1).phase[t].Free? ==> r.actions[n] == Signal(t, c, true) && c in At(r, n).conds && At(r, n).conds[c].waiters == []
  {
    AtStep(r, n);
    SoundAt(r, n);
    BroadcastStep(At(r, n), r.actions[n], t, c);
  }

  lemma FirstRound(s: State, t: nat, c: nat)
    requires CanSignal(s, t, c, true)
    ensures var s' := Next(s, Signal(t, c, true));
      t in s'.phase && if s.conds[c].waiters == [] then s'.phase[t].Free? else Broadcasting(s'.phase[t], c)
  {
  }

  /**
   `condvar_broadcast` returns only after a round that found nobody queued, and by then every
   task that was queued when it was called has been taken off and woken; or another signaller
   took it off and is about to wake it.
   */
  lemma BroadcastReachesAll(r: Trace, i: nat, n: nat, t: nat, c: nat)
    requires Sound(r) && n <= |r.actions| && Calls(r, i, n, t, c, true) && t in At(r, n).phase && At(r, n).phase[t].Free?
    ensures r.actions[n - 1] == Signal(t, c, true) && c in At(r, n - 1).conds && At(r, n - 1).conds[c].waiters == []
    ensures forall w :: QueuedAt(r, i, c, w) ==> Served(r, i, n, t, c, w)
  {
    Unseal(|r.actions|, r);
    LoopsOn(r, i, n, t, c);
    forall w | QueuedAt(r, i, c, w) ensures Served(r, i, n, t, c, w) {
      DuringCall(r, i, n, c, w);
      EmptyAfter(r, n, t, c);
      ServedBy(r, i, n, t, c, w);
    }
  }

  lemma EmptyAfter(r: Trace, n: nat, t: nat, c: nat)
    requires 0 < n <= |r.actions| && r.actions[n - 1].Signal? && c in At(r, n - 1).conds && At(r, n - 1).conds[c].waiters == []
    ensures forall w :: !QueuedAt(r, n, c, w)
  {
    AtStep(r, n - 1);
  }

  lemma ServedBy(r: Trace, i: nat, n: nat, t: nat, c: nat, w: nat)
    requires n <= |r.actions| && Handled(r, i, n, c, w) && t in At(r, n).phase && At(r, n).phase[t].Free?
    ensures Served(r, i, n, t, c, w)
  {
    var d :| i <= d < n && Taken(r, d, c, w) && (WokenIn(r, d, n, w) || Owed(At(r, n), w));
    if Owed(At(r, n), w) {
      var a :| a in At(r, n).phase && Owes(At(r, n).phase[a]) == w;
      assert a != t;
    }
  }

  /** What one signal takes: the head of the queue, and nothing else changes but the caller's place. */
  lemma SignalTakesHead(s: State, t: nat, c: nat)
    requires Inv(s) && t in s.phase && s.phase[t].Free? && c in s.conds && s.conds[c].holder == NONE
    ensures var s' := Next(s, Signal(t, c, false));
      if s.conds[c].waiters == [] then s' == s
      else
        && s'.conds == s.conds[c := s.conds[c].(waiters := s.conds[c].waiters[1..])]
        && s'.mutexes == s.mutexes && s'.tokens == s.tokens && t in s'.phase && s'.phase == s.phase[t := s'.phase[t]]
        && Owes(s'.phase[t]) == s.conds[c].waiters[0]
  {
    if s.conds[c].waiters == [] {
      assert s.phase[t := Free] == s.phase;
    }
  }

  predicate Single(p: Phase, w: nat, c: nat) { p == Signalling(w, false, c) }

  lemma {:induction false} SingleOn(r: Trace, i: nat, n: nat, t: nat, c: nat, w: nat)
    requires Steady(r) && n <= |r.actions| && Calls(r, i, n, t, c, false) && At(r, i).conds[c].waiters != [] && w == At(r, i).conds[c].waiters[0]
    ensures t in At(r, n).phase
    ensures if At(r, n).phase[t].Free? then i < n - 1 && r.actions[n - 1] == Unpark(t) && Wakes(r, n - 1, w) else Single(At(r, n).phase[t], w, c)
    decreases n
  {
    if n > i + 1 {
      SingleOn(r, i, n - 1, t, c, w);
      SingleAt(r, n - 1, t, c, w);
    } else {
      AtStep(r, i);
      FirstSignal(At(r, i), t, c);
    }
  }

  lemma SingleAt(r: Trace, n: nat, t: nat, c: nat, w: nat)
    requires Steady(r) && n < |r.actions| && t in At(r, n).phase && Single(At(r, n).phase[t], w, c)
    ensures t in At(r, n + 1).phase
    ensures if r.actions[n] == Unpark(t) then At(r, n + 1).phase[t].Free? && Wakes(r, n, w) else Single(At(r, n + 1).phase[t], w, c)
  {
    AtStep(r, n);
    SoundAt(r, n);
    SingleStep(At(r, n), r.actions[n], t, c, w);
  }

  lemma FirstSignal(s: State, t: nat, c: nat)
    requires CanSignal(s, t, c, false) && s.conds[c].waiters != []
    ensures var s' := Next(s, Signal(t, c, false)); t in s'.phase && Single(s'.phase[t], s.conds[c].waiters[0], c)
  {
  }

  lemma SingleStep(s: State, a: Action, t: nat, c: nat, w: nat)
    requires Inv(s) && t in s.phase && Single(s.phase[t], w, c)
    ensures var s' := Next(s, a); t in s'.phase && if a == Unpark(t) then s'.phase[t].Free? && Woke(s, s', w) else s'.phase[t] == s.phase[t]
  {
    if a == Unpark(t) {
      Debt(s, t);
      assert TaskOk(s, w);
    } else {
      DebtorStays(s, a, t);
    }
  }

  /** Once the head is taken, the caller takes nobody else. */
  lemma SingleTakesOne(s: State, a: Action, t: nat, c: nat, w: nat)
    requires t in s.phase && Single(s.phase[t], w, c) && a.t == t
    ensures Next(s, a).conds == s.conds
  {
  }

  lemma SingleQuiet(r: Trace, i: nat, m: nat, t: nat, c: nat, w: nat)
    requires Steady(r) && m < |r.actions| && Calls(r, i, m + 1, t, c, false) && i < m && r.actions[m].t == t
    requires At(r, i).conds[c].waiters != [] && w == At(r, i).conds[c].waiters[0]
    ensures At(r, m + 1).conds == At(r, m).conds
  {
    SingleOn(r, i, m, t, c, w);
    AtStep(r, m);
    SingleTakesOne(At(r, m), r.actions[m], t, c, w);
  }

  lemma HeadTaken(r: Trace, i: nat, t: nat, c: nat)
    requires Steady(r) && i < |r.actions| && Calls(r, i, i + 1, t, c, false) && At(r, i).conds[c].waiters != []
    ensures Taken(r, i, c, At(r, i).conds[c].waiters[0])
  {
    AtStep(r, i);
    SoundAt(r, i);
    HeadOnce(At(r, i), c);
    SignalTakesHead(At(r, i), t, c);
  }

  /** `condvar_signal` on a queue that is not empty wakes its head and then returns. */
  lemma SignalWakesHead(r: Trace, i: nat, n: nat, t: nat, c: nat)
    requires Sound(r) && n <= |r.actions| && Calls(r, i, n, t, c, false) && t in At(r, n).phase && At(r, n).phase[t].Free?
    requires At(r, i).conds[c].waiters != []
    ensures Taken(r, i, c, At(r, i).conds[c].waiters[0]) && i < n - 1 && Wakes(r, n - 1, At(r, i).conds[c].waiters[0])
    ensures forall m :: i < m < n && r.actions[m].t == t ==> At(r, m + 1).conds == At(r, m).conds
  {
    Unseal(|r.actions|, r);
    HeadTaken(r, i, t, c);
    SingleOn(r, i, n, t, c, At(r, i).conds[c].waiters[0]);
    forall m | i < m < n && r.actions[m].t == t ensures At(r, m + 1).conds == At(r, m).conds {
      SingleQuiet(r, i, m, t, c, At(r, i).conds[c].waiters[0]);
    }
  }

  lemma HeadOnce(s: State, c: nat)
    requires Inv(s) && c in s.conds && s.conds[c].waiters != []
    ensures s.conds[c].waiters[0] !in s.conds[c].waiters[1..]
  {
    assert CondOk(s, c);
  }

  // ---------------------------------------------------------------- a whole condition wait

  /** `t` enters `condvar_wait(c, m)` at step `i` and has not returned before step `n`. */
  ghost predicate WaitsOn(r: Trace, i: nat, n: nat, t: nat, c: nat, m: nat)
    requires n <= |r.actions|
  {
    && i < n && r.actions[i] == Enter(t, c, m) && At(r, i + 1) != At(r, i)
    && forall k :: i < k < n ==> t in At(r, k).phase && !At(r, k).phase[t].Free?
  }

  /** Where a task is inside `condvar_wait(c, m)`, its second half in `mutex_lock`. */
  predicate InWait(p: Phase, c: nat, m: nat) {
    match p
    case Publishing(d, k) => d == c && k == m
    case Releasing(d, k, _) => d == c && k == m
    case Waits(o) => o == OnCond(c, m) || o == OnMutex(m)
    case Parked(o) => o == OnCond(c, m) || o == OnMutex(m)
    case Woken(o) => o == OnCond(c, m) || o == OnMutex(m)
    case Locks(k) => k == m
    case _ => false
  }

  lemma WaitStep(s: State, a: Action, t: nat, c: nat, m: nat)
    requires Inv(s) && t in s.phase && InWait(s.phase[t], c, m)
    ensures var s' := Next(s, a);
      t in s'.phase && (InWait(s'.phase[t], c, m) || (s'.phase[t].Free? && ReturnsFrom(s, a, m)))
  {
    if a == Unpark(t) {
      PaysInWait(s, t, c, m);
    } else if a.t == t {
      OwnWaitStep(s, a, c, m);
    } else if a.Unpark? {
      WokenWaitStep(s, a.t, t, c, m);
    } else {
      OtherLeaves(s, a, t);
    }
  }

  lemma OwnWaitStep(s: State, a: Action, c: nat, m: nat)
    requires a.t in s.phase && InWait(s.phase[a.t], c, m) && !a.Unpark?
    ensures var s' := Next(s, a);
      a.t in s'.phase && (InWait(s'.phase[a.t], c, m) || (s'.phase[a.t].Free? && ReturnsFrom(s, a, m)))
  {
  }

  lemma PaysInWait(s: State, t: nat, c: nat, m: nat)
    requires Inv(s) && t in s.phase && InWait(s.phase[t], c, m)
    ensures var s' := Next(s, Unpark(t)); t in s'.phase && InWait(s'.phase[t], c, m)
  {
    if Owes(s.phase[t]) != NONE {
      Debt(s, t);
      PaidStays(s, t, Owes(s.phase[t]), c, m);
    }
  }

  lemma PaidStays(s: State, t: nat, n: nat, c: nat, m: nat)
    requires t in s.phase && n in s.phase && n != t && Owes(s.phase[t]) == n && InWait(s.phase[t], c, m)
    ensures t in Unparked(s, t, n).phase && InWait(Unparked(s, t, n).phase[t], c, m)
  {
  }

  lemma WokenWaitStep(s: State, a: nat, t: nat, c: nat, m: nat)
    requires t in s.phase && a != t && InWait(s.phase[t], c, m)
    ensures var s' := Next(s, Unpark(a)); t in s'.phase && InWait(s'.phase[t], c, m)
  {
  }

  lemma WaitAt(r: Trace, n: nat, t: nat, c: nat, m: nat)
    requires Steady(r) && n < |r.actions| && t in At(r, n).phase && InWait(At(r, n).phase[t], c, m)
    ensures t in At(r, n + 1).phase
    ensures InWait(At(r, n + 1).phase[t], c, m) || (At(r, n + 1).phase[t].Free? && ReturnsFrom(At(r, n), r.actions[n], m))
  {
    AtStep(r, n);
    SoundAt(r, n);
    WaitStep(At(r, n), r.actions[n], t, c, m);
  }

  lemma {:induction false} WaitsThrough(r: Trace, i: nat, n: nat, t: nat, c: nat, m: nat)
    requires Steady(r) && n <= |r.actions| && WaitsOn(r, i, n, t, c, m)
    ensures t in At(r, n).phase
    ensures InWait(At(r, n).phase[t], c, m) || (At(r, n).phase[t].Free? && ReturnsFrom(At(r, n - 1), r.actions[n - 1], m))
    decreases n
  {
    if n > i + 1 {
      WaitsThrough(r, i, n - 1, t, c, m);
      WaitAt(r, n - 1, t, c, m);
    } else {
      AtStep(r, i);
      Entered(At(r, i), t, c, m);
    }
  }

  lemma Entered(s: State, t: nat, c: nat, m: nat)
    requires Next(s, Enter(t, c, m)) != s
    ensures var s' := Next(s, Enter(t, c, m)); t in s'.phase && InWait(s'.phase[t], c, m) && c in s'.conds && t in s'.conds[c].waiters
  {
    var s' := Next(s, Enter(t, c, m));
    assert s'.conds[c].waiters[|s'.conds[c].waiters| - 1] == t;
  }

  /** A task outside these functions is queued nowhere and owed nothing. */
  lemma FreeOwedNothing(r: Trace, n: nat, t: nat, c: nat)
    requires Steady(r) && n <= |r.actions| && t in At(r, n).phase && At(r, n).phase[t].Free?
    ensures !QueuedAt(r, n, c, t) && !Owed(At(r, n), t)
  {
    SoundAt(r, n);
    FreeAside(At(r, n), t, c);
  }

  lemma FreeAside(s: State, t: nat, c: nat)
    requires Inv(s) && t in s.phase && s.phase[t].Free?
    ensures !(c in s.conds && t in s.conds[c].waiters) && !Owed(s, t)
  {
    assert TaskOk(s, t);
    if c in s.conds {
      assert CondOk(s, c);
    }
    if Owed(s, t) {
      var a :| a in s.phase && Owes(s.phase[a]) == t;
      Debt(s, a);
    }
  }

  /**
   `condvar_wait` returns only after somebody took the caller off the condition's queue and
   woke it, and it returns by a `mutex_lock` of the mutex it was called with.
   */
  lemma WaitReturns(r: Trace, i: nat, n: nat, t: nat, c: nat, m: nat)
    requires Sound(r) && n <= |r.actions| && WaitsOn(r, i, n, t, c, m) && t in At(r, n).phase && At(r, n).phase[t].Free?
    ensures exists d :: i < d < n && Taken(r, d, c, t) && WokenIn(r, d, n, t)
    ensures ReturnsFrom(At(r, n - 1), r.actions[n - 1], m)
  {
    Unseal(|r.actions|, r);
    WaitsThrough(r, i, n, t, c, m);
    AtStep(r, i);
    Entered(At(r, i), t, c, m);
    DuringCall(r, i + 1, n, c, t);
    FreeOwedNothing(r, n, t, c);
  }
}
