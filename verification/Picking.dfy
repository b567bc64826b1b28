/**
 The choice of the next task (`sched_pick_next_locked`): the first ready task of the own
 queue, else of the queue an idle processor steals from, which is the first of the longest
 others.  Entries whose task is no longer ready are stale and drop out on the way.
 */
module Picking {
  import opened RunQueue
  import opened Wrappers

  predicate IsReady(tasks: seq<Task>, t: nat) { t < |tasks| && tasks[t].state.Ready? }

  /** The place of the first ready task, or the length where all entries are stale. */
  ghost function FirstReady(tasks: seq<Task>, q: seq<nat>): (k: nat)
    ensures k <= |q|
    ensures forall j :: 0 <= j < k ==> !IsReady(tasks, q[j])
    ensures k < |q| ==> IsReady(tasks, q[k])
  {
    if q == [] then 0
    else if IsReady(tasks, q[0]) then 0
    else 1 + FirstReady(tasks, q[1..])
  }

  /** The tasks that leave: everything up to the first ready one. */
  ghost function Taken(tasks: seq<Task>, q: seq<nat>): seq<nat> {
    var k := FirstReady(tasks, q);
    if k < |q| then q[..k + 1] else q
  }

  ghost function Left(tasks: seq<Task>, q: seq<nat>): seq<nat> {
    var k := FirstReady(tasks, q);
    if k < |q| then q[k + 1..] else []
  }

  /** The first ready task of a queue, if it holds any. */
  ghost function ReadyOf(tasks: seq<Task>, q: seq<nat>): int {
    var k := FirstReady(tasks, q);
    if k < |q| then q[k] else NONE
  }

  ghost predicate AllStale(tasks: seq<Task>, q: seq<nat>) {
    forall t :: t in q ==> !IsReady(tasks, t)
  }

  lemma StaleMeans(tasks: seq<Task>, q: seq<nat>)
    ensures ReadyOf(tasks, q) == NONE <==> AllStale(tasks, q)
    ensures AllStale(tasks, q) ==> Left(tasks, q) == [] && Taken(tasks, q) == q
  {
    var k := FirstReady(tasks, q);
    if k < |q| {
      assert q[k] in q;
    }
  }

  /**
   The queue an idle processor steals from: the lowest-numbered of the longest others, or
   its own where the others are empty.
   */
  ghost predicate IsVictim(queues: seq<seq<nat>>, cpu: nat, v: nat) {
    && v < |queues|
    && if v == cpu then forall c :: 0 <= c < |queues| && c != cpu ==> queues[c] == []
       else queues[v] != [] && forall c :: 0 <= c < |queues| && c != cpu ==> Beaten(queues, c, v)
  }

  ghost predicate Beaten(queues: seq<seq<nat>>, c: nat, v: nat)
    requires c < |queues| && v < |queues|
  {
    |queues[c]| <= |queues[v]| && (c < v ==> |queues[c]| < |queues[v]|)
  }

  lemma OneVictim(queues: seq<seq<nat>>, cpu: nat, v: nat, v': nat)
    requires IsVictim(queues, cpu, v) && IsVictim(queues, cpu, v')
    ensures v == v'
  {
    if v != cpu && v' != cpu {
      assert Beaten(queues, v, v') && Beaten(queues, v', v);
    }
  }

  /** The scan, over the queues below `n`. */
  ghost function Scan(queues: seq<seq<nat>>, cpu: nat, n: nat): (v: nat)
    requires cpu < |queues| && n <= |queues|
    ensures v < |queues|
    ensures v == cpu ==> forall c :: 0 <= c < n && c != cpu ==> |queues[c]| == 0
    ensures v != cpu ==> v < n && queues[v] != [] && forall c :: 0 <= c < n && c != cpu ==> |queues[c]| <= |queues[v]| && (c < v ==> |queues[c]| < |queues[v]|)
  {
    if n == 0 then cpu
    else
      var v := Scan(queues, cpu, n - 1);
      if n - 1 != cpu && |queues[n - 1]| > (if v == cpu then 0 else |queues[v]|) then n - 1 else v
  }

  ghost function Victim(queues: seq<seq<nat>>, cpu: nat): (v: nat)
    requires cpu < |queues|
    ensures IsVictim(queues, cpu, v)
  {
    Scan(queues, cpu, |queues|)
  }

  /** The task a processor picks. */
  ghost function Choice(tasks: seq<Task>, queues: seq<seq<nat>>, cpu: nat): int
    requires cpu < |queues|
  {
    var v := Victim(queues, cpu);
    if ReadyOf(tasks, queues[cpu]) != NONE || v == cpu then ReadyOf(tasks, queues[cpu])
    else ReadyOf(tasks, queues[v])
  }

  /** What picking leaves in the queues. */
  ghost function AfterPick(tasks: seq<Task>, queues: seq<seq<nat>>, cpu: nat): seq<seq<nat>>
    requires cpu < |queues|
  {
    var v := Victim(queues, cpu);
    var own := queues[cpu := Left(tasks, queues[cpu])];
    if ReadyOf(tasks, queues[cpu]) != NONE || v == cpu then own
    else own[v := Left(tasks, queues[v])]
  }

  /** A processor picks nothing exactly if its own queue and its victim's are stale. */
  lemma PicksNothing(tasks: seq<Task>, queues: seq<seq<nat>>, cpu: nat)
    requires cpu < |queues|
    ensures Choice(tasks, queues, cpu) == NONE <==>
      AllStale(tasks, queues[cpu]) && (Victim(queues, cpu) == cpu || AllStale(tasks, queues[Victim(queues, cpu)]))
  {
    StaleMeans(tasks, queues[cpu]);
    StaleMeans(tasks, queues[Victim(queues, cpu)]);
  }

  ghost predicate HoldsReady(tasks: seq<Task>, queues: seq<seq<nat>>) {
    exists c :: 0 <= c < |queues| && !AllStale(tasks, queues[c])
  }

  /** Its own queue and a victim's that is not empty are stale, and a third queue is not. */
  ghost predicate Overlooks(tasks: seq<Task>, queues: seq<seq<nat>>, cpu: nat)
    requires cpu < |queues|
  {
    var v := Victim(queues, cpu);
    && v != cpu && AllStale(tasks, queues[cpu]) && AllStale(tasks, queues[v])
    && exists c :: 0 <= c < |queues| && c != cpu && c != v && !AllStale(tasks, queues[c])
  }

  /** A processor picks nothing although a queue holds a ready task exactly if it overlooks it, and so it stays. */
  lemma OverlooksExact(tasks: seq<Task>, queues: seq<seq<nat>>, cpu: nat)
    requires cpu < |queues|
    ensures Choice(tasks, queues, cpu) == NONE && HoldsReady(tasks, queues) <==> Overlooks(tasks, queues, cpu)
    ensures Choice(tasks, queues, cpu) == NONE ==>
      (HoldsReady(tasks, AfterPick(tasks, queues, cpu)) <==> Overlooks(tasks, queues, cpu))
  {
    PicksNothing(tasks, queues, cpu);
    var v := Victim(queues, cpu);
    StaleMeans(tasks, queues[cpu]);
    StaleMeans(tasks, queues[v]);
    if Overlooks(tasks, queues, cpu) {
      var c :| 0 <= c < |queues| && c != cpu && c != v && !AllStale(tasks, queues[c]);
      assert AfterPick(tasks, queues, cpu)[c] == queues[c];
    }
  }

  /** Without stale entries a pick finds a task whenever some queue holds one. */
  lemma FreshNeverOverlooks(tasks: seq<Task>, queues: seq<seq<nat>>, cpu: nat)
    requires cpu < |queues| && forall c, t :: 0 <= c < |queues| && t in queues[c] ==> IsReady(tasks, t)
    ensures !Overlooks(tasks, queues, cpu)
  {
    var v := Victim(queues, cpu);
    if v != cpu {
      assert queues[v][0] in queues[v];
    }
  }

  /** Only the states of the queued tasks matter. */
  lemma {:induction false} SameFirst(tasks: seq<Task>, tasks': seq<Task>, q: seq<nat>)
    requires forall t :: t in q ==> (IsReady(tasks, t) <==> IsReady(tasks', t))
    ensures FirstReady(tasks', q) == FirstReady(tasks, q)
  {
    if q != [] {
      assert q[0] in q;
      SameFirst(tasks, tasks', q[1..]);
    }
  }

  /** Place `k` holds the first ready task of a queue. */
  ghost predicate FirstReadyAt(tasks: seq<Task>, q: seq<nat>, k: nat) {
    k < |q| && IsReady(tasks, q[k]) && forall j :: 0 <= j < k ==> !IsReady(tasks, q[j])
  }

  lemma FirstReadyThere(tasks: seq<Task>, q: seq<nat>)
    ensures if AllStale(tasks, q) then ReadyOf(tasks, q) == NONE && Left(tasks, q) == []
            else exists k: nat :: FirstReadyAt(tasks, q, k) && ReadyOf(tasks, q) == q[k] && Left(tasks, q) == q[k + 1..]
  {
    StaleMeans(tasks, q);
    if !AllStale(tasks, q) {
      assert FirstReadyAt(tasks, q, FirstReady(tasks, q));
    }
  }

  /** Queue `c` gives up its first ready task `t` and the stale entries before it. */
  ghost predicate TakenAt(tasks: seq<Task>, queues: seq<seq<nat>>, c: nat, t: int, queues': seq<seq<nat>>) {
    c < |queues| && exists k: nat :: FirstReadyAt(tasks, queues[c], k) && t == queues[c][k] && queues' == queues[c := queues[c][k + 1..]]
  }

  /** The pick, place by place: the own queue first, then the victim's, each from its head. */
  lemma PickMeans(tasks: seq<Task>, queues: seq<seq<nat>>, cpu: nat, v: nat)
    requires cpu < |queues| && IsVictim(queues, cpu, v)
    ensures var t, after := Choice(tasks, queues, cpu), AfterPick(tasks, queues, cpu);
      if !AllStale(tasks, queues[cpu]) then TakenAt(tasks, queues, cpu, t, after)
      else if v == cpu then t == NONE && after == queues[cpu := []]
      else if AllStale(tasks, queues[v]) then t == NONE && after == queues[cpu := []][v := []]
      else TakenAt(tasks, queues[cpu := []], v, t, after)
  {
    OneVictim(queues, cpu, v, Victim(queues, cpu));
    FirstReadyThere(tasks, queues[cpu]);
    FirstReadyThere(tasks, queues[v]);
    assert v != cpu ==> queues[cpu := []][v] == queues[v];
  }
}
