/**
 The TLB shootdown handshake (`mmu_context_shootdown`, `mmu_handle_shootdown_ipi`) as a state
 machine: every region under the state lock, every invalidation and every poll is a step of
 its own, and the steps of all processors interleave freely.  Interrupts may arrive at any
 time, asked for or not, except on the processor that waits with them masked.
 */
module Shootdown {
  const CPUS: nat := 4

  /** Where the holder of the serialisation lock is in `mmu_context_shootdown`. */
  datatype Phase =
    | Unlocked
    | Locked(cpu: nat, id: nat)
    | Snapped(cpu: nat, id: nat, targets: set<nat>)
    | Posted(cpu: nat, id: nat, targets: set<nat>, since: nat)
    | Waiting(cpu: nat, id: nat, targets: set<nat>, since: nat)

  /** Where a processor's interrupt handler is. */
  datatype Handler = Ready | Took(id: nat) | Flushed(id: nat)

  datatype Entry =
    | Request(cpu: nat, id: nat, targets: set<nat>)
    | Invalidated(cpu: nat, id: nat)
    | Returned(cpu: nat, id: nat, targets: set<nat>, since: nat)

  /** `asid` and `pending` are the two shared words; `log` is the order in which things happened. */
  datatype State = State(phase: Phase, handlers: seq<Handler>, asid: nat, pending: set<nat>, log: seq<Entry>)

  const INIT := State(Unlocked, [Ready, Ready, Ready, Ready], 0, {}, [])

  datatype Action =
    | Lock(cpu: nat, id: nat)            // a request for the ASID `id`
    | Snapshot(cpu: nat, mask: set<nat>) // the active mask read under the lifecycle lock
    | Post(cpu: nat)
    | Own(cpu: nat)                      // the requester's own invalidation
    | Poll(cpu: nat)
    | Interrupt(cpu: nat)                // the handler's first region
    | Flush(cpu: nat)
    | Acknowledge(cpu: nat)              // the handler's second region

  function Owner(p: Phase): int { if p.Unlocked? then -1 else p.cpu }

  /** The step an action makes, or the same state where the action is not possible. */
  function Next(s: State, a: Action): State
    requires |s.handlers| == CPUS
  {
    if a.cpu >= CPUS then s else
    match a
    case Lock(cpu, id) =>
      if s.phase.Unlocked? && s.handlers[cpu].Ready? then s.(phase := Locked(cpu, id)) else s
    case Snapshot(cpu, mask) =>
      if s.phase.Locked? && s.phase.cpu == cpu
      then s.(phase := Snapped(cpu, s.phase.id, (set c | c in mask && c < CPUS) - {cpu})) else s
    case Post(cpu) =>
      if s.phase.Snapped? && s.phase.cpu == cpu
      then s.(asid := s.phase.id, pending := s.phase.targets, log := s.log + [Request(cpu, s.phase.id, s.phase.targets)],
              phase := Posted(cpu, s.phase.id, s.phase.targets, |s.log|)) else s
    case Own(cpu) =>
      if s.phase.Posted? && s.phase.cpu == cpu
      then s.(log := s.log + [Invalidated(cpu, s.phase.id)],
              phase := Waiting(cpu, s.phase.id, s.phase.targets, s.phase.since)) else s
    case Poll(cpu) =>
      if s.phase.Waiting? && s.phase.cpu == cpu && s.pending == {}
      then s.(log := s.log + [Returned(cpu, s.phase.id, s.phase.targets, s.phase.since)], phase := Unlocked) else s
    case Interrupt(cpu) =>
      if Owner(s.phase) != cpu && s.handlers[cpu].Ready? && cpu in s.pending
      then s.(handlers := s.handlers[cpu := Took(s.asid)]) else s
    case Flush(cpu) =>
      if s.handlers[cpu].Took?
      then s.(log := s.log + [Invalidated(cpu, s.handlers[cpu].id)], handlers := s.handlers[cpu := Flushed(s.handlers[cpu].id)]) else s
    case Acknowledge(cpu) =>
      if s.handlers[cpu].Flushed?
      then s.(pending := s.pending - {cpu}, handlers := s.handlers[cpu := Ready]) else s
  }

  /** Processor `cpu` completed an invalidation of `id` after entry `since` of the log. */
  ghost predicate DoneSince(log: seq<Entry>, since: nat, cpu: nat, id: nat) {
    Invalidated(cpu, id) in log[if since + 1 <= |log| then since + 1 else |log|..]
  }

  /** A return is honest if the request it answers was posted and then obeyed everywhere. */
  ghost predicate Honest(log: seq<Entry>, k: nat)
    requires k < |log|
  {
    log[k].Returned? ==>
      var r := log[k];
      && r.since < k && log[r.since] == Request(r.cpu, r.id, r.targets)
      && (forall t :: t in r.targets ==> DoneSince(log[..k], r.since, t, r.id))
      && DoneSince(log[..k], r.since, r.cpu, r.id)
      && (forall i :: r.since < i < k ==> !log[i].Request?)
  }

  /** What is known of a request from its posting to its return. */
  ghost predicate Current(s: State, cpu: nat, id: nat, targets: set<nat>, since: nat) {
    && |s.handlers| == CPUS && since < |s.log| && s.log[since] == Request(cpu, id, targets)
    && (forall i :: since < i < |s.log| ==> !s.log[i].Request?)
    && s.asid == id && s.pending <= targets && cpu !in targets
    && (forall t :: t in targets && t !in s.pending ==> DoneSince(s.log, since, t, id))
    && (forall c :: 0 <= c < CPUS && s.handlers[c].Flushed? ==> DoneSince(s.log, since, c, id))
  }

  ghost predicate Inv(s: State) {
    && |s.handlers| == CPUS && (!s.phase.Unlocked? ==> s.phase.cpu < CPUS)
    && (forall k :: 0 <= k < |s.log| ==> Honest(s.log, k))
    && (forall c :: 0 <= c < CPUS && !s.handlers[c].Ready? ==> c in s.pending && s.handlers[c].id == s.asid)
    && match s.phase
       case Unlocked => s.pending == {}
       case Locked(_, _) => s.pending == {}
       case Snapped(cpu, _, targets) => s.pending == {} && cpu !in targets
       case Posted(cpu, id, targets, since) => Current(s, cpu, id, targets, since)
       case Waiting(cpu, id, targets, since) =>
         Current(s, cpu, id, targets, since) && DoneSince(s.log, since, cpu, id)
  }

  lemma Appended(log: seq<Entry>, e: Entry, since: nat, cpu: nat, id: nat)
    requires since < |log|
    ensures DoneSince(log, since, cpu, id) ==> DoneSince(log + [e], since, cpu, id)
    ensures e == Invalidated(cpu, id) ==> DoneSince(log + [e], since, cpu, id)
  {
    assert (log + [e])[since + 1..] == log[since + 1..] + [e];
  }

  lemma HonestPrefix(log: seq<Entry>, e: Entry)
    requires forall k :: 0 <= k < |log| ==> Honest(log, k)
    requires !e.Returned?
    ensures forall k :: 0 <= k < |log + [e]| ==> Honest(log + [e], k)
  {
    forall k | 0 <= k < |log| ensures Honest(log + [e], k) {
      assert Honest(log, k);
      assert (log + [e])[..k] == log[..k];
    }
  }

  lemma Appending(s: State, e: Entry, cpu: nat, id: nat, targets: set<nat>, since: nat)
    requires Current(s, cpu, id, targets, since) && !e.Request?
    ensures Current(s.(log := s.log + [e]), cpu, id, targets, since)
  {
    forall c ensures DoneSince(s.log, since, c, id) ==> DoneSince(s.log + [e], since, c, id) {
      Appended(s.log, e, since, c, id);
    }
  }

  lemma StepInv(s: State, a: Action)
    requires Inv(s)
    ensures Inv(Next(s, a))
  {
    var s' := Next(s, a);
    if a.cpu < CPUS && s' != s {
      match a {
        case Lock(_, _) =>
        case Snapshot(_, _) =>
        case Post(_) => HonestPrefix(s.log, s'.log[|s.log|]);
        case Own(cpu) =>
          HonestPrefix(s.log, s'.log[|s.log|]);
          Appending(s, s'.log[|s.log|], s.phase.cpu, s.phase.id, s.phase.targets, s.phase.since);
          Appended(s.log, s'.log[|s.log|], s.phase.since, cpu, s.phase.id);
        case Poll(_) => PollInv(s, s');
        case Interrupt(_) =>
        case Flush(cpu) => FlushInv(s, s', cpu);
        case Acknowledge(_) =>
      }
    }
  }

  lemma PollInv(s: State, s': State)
    requires Inv(s) && s.phase.Waiting? && s.pending == {}
    requires s' == s.(log := s.log + [Returned(s.phase.cpu, s.phase.id, s.phase.targets, s.phase.since)], phase := Unlocked)
    ensures Inv(s')
  {
    forall k | 0 <= k < |s.log| ensures Honest(s'.log, k) {
      assert Honest(s.log, k);
      assert s'.log[..k] == s.log[..k];
    }
    assert s'.log[..|s.log|] == s.log;
    assert Honest(s'.log, |s.log|);
  }

  lemma FlushInv(s: State, s': State, cpu: nat)
    requires Inv(s) && cpu < CPUS && s.handlers[cpu].Took?
    requires s' == s.(log := s.log + [Invalidated(cpu, s.handlers[cpu].id)], handlers := s.handlers[cpu := Flushed(s.handlers[cpu].id)])
    ensures Inv(s')
  {
    var e := Invalidated(cpu, s.handlers[cpu].id);
    HonestPrefix(s.log, e);
    assert cpu in s.pending;
    Appending(s, e, s.phase.cpu, s.phase.id, s.phase.targets, s.phase.since);
    Appended(s.log, e, s.phase.since, cpu, s.handlers[cpu].id);
    Appended(s.log, e, s.phase.since, s.phase.cpu, s.phase.id);
  }

  function Run(s: State, actions: seq<Action>): State
    requires |s.handlers| == CPUS
    ensures |Run(s, actions).handlers| == CPUS
  {
    if actions == [] then s else Next(Run(s, actions[..|actions| - 1]), actions[|actions| - 1])
  }

  lemma {:induction false} RunInv(actions: seq<Action>)
    ensures Inv(Run(INIT, actions))
  {
    if actions != [] {
      RunInv(actions[..|actions| - 1]);
      StepInv(Run(INIT, actions[..|actions| - 1]), actions[|actions| - 1]);
    }
  }

  /**
   Whenever a shootdown has returned, in any interleaving: its request was posted before,
   and between the two every processor of its snapshot, and the requester itself, completed
   an invalidation of exactly that ASID while no other request was in force.
   */
  lemma Acknowledged(actions: seq<Action>, k: nat)
    requires k < |Run(INIT, actions).log| && Run(INIT, actions).log[k].Returned?
    ensures Obeyed(Run(INIT, actions).log, k)
  {
    RunInv(actions);
    HonestMeans(Run(INIT, actions).log, k);
  }

  ghost predicate Obeyed(log: seq<Entry>, k: nat)
    requires k < |log| && log[k].Returned?
  {
    var r := log[k];
    && r.since < k && log[r.since] == Request(r.cpu, r.id, r.targets)
    && (forall t :: t in r.targets + {r.cpu} ==> exists i :: r.since < i < k && log[i] == Invalidated(t, r.id))
    && (forall i :: r.since < i < k ==> !log[i].Request?)
  }

  lemma HonestMeans(log: seq<Entry>, k: nat)
    requires k < |log| && log[k].Returned? && Honest(log, k)
    ensures Obeyed(log, k)
  {
    var r := log[k];
    forall t | t in r.targets + {r.cpu} ensures exists i :: r.since < i < k && log[i] == Invalidated(t, r.id) {
      assert DoneSince(log[..k], r.since, t, r.id);
      var j :| 0 <= j < |log[..k][r.since + 1..]| && log[..k][r.since + 1..][j] == Invalidated(t, r.id);
      assert log[r.since + 1 + j] == Invalidated(t, r.id);
    }
  }

  // ---------------------------------------------------------------- from the mask that was read

  /** The state after the first `n` actions. */
  function After(actions: seq<Action>, n: nat): (s: State)
    requires n <= |actions|
    ensures |s.handlers| == CPUS
  {
    Run(INIT, actions[..n])
  }

  lemma AfterStep(actions: seq<Action>, n: nat)
    requires n < |actions|
    ensures After(actions, n + 1) == Next(After(actions, n), actions[n])
  {
    assert actions[..n + 1][..n] == actions[..n];
  }

  /** Step `m` invalidates ASID `id` on processor `c`. */
  ghost predicate Invalidates(actions: seq<Action>, m: nat, c: nat, id: nat)
    requires m < |actions|
  {
    && (actions[m] == Own(c) || actions[m] == Flush(c))
    && After(actions, m + 1).log == After(actions, m).log + [Invalidated(c, id)]
  }

  /** The steps at which the shootdown in progress after `n` actions took the lock, read the mask and posted its request. */
  datatype Steps = Steps(lock: nat, read: nat, post: nat)

  /** The lock was taken at step `i` and has been held since. */
  ghost predicate Holds(actions: seq<Action>, n: nat, cpu: nat, id: nat, i: nat)
    requires n <= |actions|
  {
    && i < n && actions[i] == Lock(cpu, id) && After(actions, i).phase.Unlocked?
    && forall m :: i < m <= n ==> Owner(After(actions, m).phase) == cpu
  }

  /** The mask read at step `j` is the one the targets come from. */
  ghost predicate Reads(actions: seq<Action>, n: nat, cpu: nat, targets: set<nat>, i: nat, j: nat)
    requires n <= |actions|
  {
    && i < j < n && actions[j].Snapshot? && actions[j].cpu == cpu && After(actions, j).phase.Locked? && After(actions, j + 1).phase.Snapped?
    && forall c :: c in targets <==> c in actions[j].mask && c < CPUS && c != cpu
  }

  ghost predicate Posts(actions: seq<Action>, n: nat, cpu: nat, since: nat, j: nat, p: nat)
    requires n <= |actions|
  {
    && j < p < n && actions[p] == Post(cpu) && |After(actions, p).log| == since
    && After(actions, p).phase.Snapped? && After(actions, p + 1).phase.Posted?
  }

  /** What the phase says happened did happen. */
  ghost predicate Told(actions: seq<Action>, n: nat, h: Steps)
    requires n <= |actions|
  {
    var ph := After(actions, n).phase;
    match ph
    case Unlocked => true
    case Locked(cpu, id) => Holds(actions, n, cpu, id, h.lock)
    case Snapped(cpu, id, targets) => Holds(actions, n, cpu, id, h.lock) && Reads(actions, n, cpu, targets, h.lock, h.read)
    case _ =>
      Holds(actions, n, ph.cpu, ph.id, h.lock) && Reads(actions, n, ph.cpu, ph.targets, h.lock, h.read)
      && Posts(actions, n, ph.cpu, ph.since, h.read, h.post)
  }

  function Noted(h: Steps, a: Action, n: nat): Steps {
    match a
    case Lock(_, _) => h.(lock := n)
    case Snapshot(_, _) => h.(read := n)
    case Post(_) => h.(post := n)
    case _ => h
  }

  /** What was done stays done while the lock is held. */
  lemma StillTold(actions: seq<Action>, n: nat, h: Steps, cpu: nat, id: nat, targets: set<nat>, since: nat)
    requires n < |actions| && Owner(After(actions, n + 1).phase) == cpu
    ensures Holds(actions, n, cpu, id, h.lock) ==> Holds(actions, n + 1, cpu, id, h.lock)
    ensures Reads(actions, n, cpu, targets, h.lock, h.read) ==> Reads(actions, n + 1, cpu, targets, h.lock, h.read)
    ensures Posts(actions, n, cpu, since, h.read, h.post) ==> Posts(actions, n + 1, cpu, since, h.read, h.post)
  {
  }

  lemma ToldOn(actions: seq<Action>, n: nat, h: Steps)
    requires n < |actions| && Told(actions, n, h)
    requires var ph, ph' := After(actions, n).phase, After(actions, n + 1).phase;
      ph' == ph || ph'.Unlocked? || (ph.Posted? && ph' == Waiting(ph.cpu, ph.id, ph.targets, ph.since))
    ensures Told(actions, n + 1, h)
  {
    var ph := After(actions, n + 1).phase;
    if !ph.Unlocked? {
      StillTold(actions, n, h, ph.cpu, ph.id, if ph.Locked? then {} else ph.targets, if ph.Locked? || ph.Snapped? then 0 else ph.since);
    }
  }

  lemma ToldStep(actions: seq<Action>, n: nat, h: Steps) returns (h': Steps)
    requires n < |actions| && Told(actions, n, h)
    ensures Told(actions, n + 1, h')
  {
    AfterStep(actions, n);
    var ph, ph' := After(actions, n).phase, After(actions, n + 1).phase;
    if ph' == ph || actions[n].Own? || actions[n].Poll? {
      h' := h;
      ToldOn(actions, n, h);
    } else {
      h' := Noted(h, actions[n], n);
      if !ph.Unlocked? {
        StillTold(actions, n, h, ph'.cpu, ph'.id, ph'.targets, 0);
      }
    }
  }

  lemma {:induction false} TellAll(actions: seq<Action>, n: nat) returns (h: Steps)
    requires n <= |actions|
    ensures Told(actions, n, h) && Inv(After(actions, n))
  {
    RunInv(actions[..n]);
    if n == 0 {
      h := Steps(0, 0, 0);
    } else {
      h := TellAll(actions, n - 1);
      h := ToldStep(actions, n - 1, h);
    }
  }

  /** The log only grows. */
  lemma {:induction false} LogGrows(actions: seq<Action>, m: nat, n: nat)
    requires m <= n <= |actions|
    ensures After(actions, m).log <= After(actions, n).log
    decreases n - m
  {
    if m < n {
      LogGrows(actions, m, n - 1);
      AfterStep(actions, n - 1);
    }
  }

  /** Each invalidation in the log was made by a step. */
  lemma {:induction false} Logged(actions: seq<Action>, n: nat, k: nat) returns (m: nat)
    requires n <= |actions| && k < |After(actions, n).log| && After(actions, n).log[k].Invalidated?
    ensures m < n && |After(actions, m).log| == k
    ensures var e := After(actions, n).log[k]; Invalidates(actions, m, e.cpu, e.id)
  {
    AfterStep(actions, n - 1);
    if k < |After(actions, n - 1).log| {
      m := Logged(actions, n - 1, k);
    } else {
      m := n - 1;
    }
  }

  /** Step `n` is the return of a shootdown that processor `cpu` asked for. */
  ghost predicate Returns(actions: seq<Action>, n: nat, cpu: nat)
    requires n < |actions|
  {
    actions[n] == Poll(cpu) && !After(actions, n).phase.Unlocked? && After(actions, n + 1).phase.Unlocked?
  }

  /** After step `p` and before step `n` every processor of the mask, and the requester, invalidates the ASID. */
  ghost predicate Everywhere(actions: seq<Action>, p: nat, n: nat, cpu: nat, mask: set<nat>, id: nat)
    requires n <= |actions|
  {
    forall c: nat :: c < CPUS && (c in mask || c == cpu) ==> InvalidatedIn(actions, p, n, c, id)
  }

  ghost predicate InvalidatedIn(actions: seq<Action>, p: nat, n: nat, c: nat, id: nat)
    requires n <= |actions|
  {
    exists m :: p < m < n && Invalidates(actions, m, c, id)
  }

  lemma InvalidatedAfter(actions: seq<Action>, p: nat, n: nat, since: nat, c: nat, id: nat)
    requires p < n <= |actions| && |After(actions, p).log| == since && DoneSince(After(actions, n).log, since, c, id)
    ensures InvalidatedIn(actions, p, n, c, id)
  {
    var log := After(actions, n).log;
    assert since + 1 <= |log|;
    var j :| 0 <= j < |log[since + 1..]| && log[since + 1..][j] == Invalidated(c, id);
    assert log[since + 1 + j] == Invalidated(c, id);
    var m := Logged(actions, n, since + 1 + j);
    if m <= p {
      LogGrows(actions, m, p);
    }
    assert Invalidates(actions, m, c, id);
  }

  /**
   A shootdown that returns, in any interleaving, took the lock for some ASID, held it
   throughout, and read a mask; and after its request was posted, every processor of that
   mask and the requester itself invalidated that ASID.
   */
  lemma ShotDown(actions: seq<Action>, n: nat, cpu: nat) returns (id: nat, i: nat, j: nat, p: nat)
    requires n < |actions| && Returns(actions, n, cpu)
    ensures i < j < p < n && actions[i] == Lock(cpu, id) && After(actions, i).phase.Unlocked?
    ensures forall m :: i < m <= n ==> Owner(After(actions, m).phase) == cpu
    ensures actions[j].Snapshot? && actions[j].cpu == cpu && After(actions, j) != After(actions, j + 1)
    ensures actions[p] == Post(cpu) && After(actions, p) != After(actions, p + 1)
    ensures Everywhere(actions, p, n, cpu, actions[j].mask, id)
  {
    var h := TellAll(actions, n);
    AfterStep(actions, n);
    var s := After(actions, n);
    id, i, j, p := s.phase.id, h.lock, h.read, h.post;
    AfterStep(actions, p);
    forall c: nat | c < CPUS && (c in actions[j].mask || c == cpu) ensures InvalidatedIn(actions, p, n, c, id) {
      assert c == cpu || c in s.phase.targets;
      InvalidatedAfter(actions, p, n, s.phase.since, c, id);
    }
  }
}
