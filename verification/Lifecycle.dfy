/**
 Reference counts, dying contexts and deferred release (`mmu_context_get`, `mmu_context_put`,
 `mmu_context_switch`).  A method is one region under the lifecycle lock; the release that
 follows it is recorded in `released`.  A mask is the set of processors whose bit is set.
 */
module Lifecycle {
  import opened Wrappers

  const CPUS: nat := 4
  const REFS: nat := 0x1_0000_0000       // `refs` is an unsigned int

  /** The reference count, dying flag and active-processor mask of a context. */
  datatype Life = Life(refs: nat, dying: bool, mask: set<nat>)

  /** Dying means unreferenced; released once means unreferenced and run nowhere. */
  ghost predicate Sound(l: Life, times: nat) {
    && l.refs < REFS && (l.dying <==> l.refs == 0)
    && (forall cpu :: cpu in l.mask ==> cpu < CPUS)
    && times == if l.refs == 0 && l.mask == {} then 1 else 0
  }

  ghost predicate LifeInv(lives: map<nat, Life>, slots: seq<Option<nat>>, released: map<nat, nat>) {
    && |slots| == CPUS && released.Keys == lives.Keys
    && (forall c :: c in lives ==> Sound(lives[c], released[c]))
    && (forall cpu :: 0 <= cpu < CPUS && slots[cpu].Some? ==> slots[cpu].value in lives)
    && (forall c, cpu :: c in lives && 0 <= cpu < CPUS ==> (cpu in lives[c].mask <==> slots[cpu] == Some(c)))
  }

  function Left(l: Life, cpu: nat): Life { l.(mask := l.mask - {cpu}) }

  function Entered(l: Life, cpu: nat): Life { l.(mask := l.mask + {cpu}) }

  function AllLeft(lives: map<nat, Life>, was: Option<nat>, cpu: nat): map<nat, Life>
    requires was.Some? ==> was.value in lives
  {
    if was.Some? then lives[was.value := Left(lives[was.value], cpu)] else lives
  }

  function AllEntered(lives: map<nat, Life>, next: Option<nat>, cpu: nat): map<nat, Life>
    requires next.Some? ==> next.value in lives
  {
    if next.Some? && !lives[next.value].dying then lives[next.value := Entered(lives[next.value], cpu)] else lives
  }

  lemma SwitchStays(lives: map<nat, Life>, was: Option<nat>, next: Option<nat>, cpu: nat)
    requires (was.Some? ==> was.value in lives) && (next.Some? ==> next.value in lives)
    requires forall c :: c in lives && lives[c].dying ==> lives[c].refs == 0
    ensures StaysDying(lives, AllEntered(AllLeft(lives, was, cpu), next, cpu))
  {
  }

  /** References and dying flags are what they were. */
  ghost predicate SameCounts(lives: map<nat, Life>, lives': map<nat, Life>) {
    lives'.Keys == lives.Keys && forall c :: c in lives ==> lives'[c].refs == lives[c].refs && lives'[c].dying == lives[c].dying
  }

  lemma SwitchCounts(lives: map<nat, Life>, was: Option<nat>, next: Option<nat>, cpu: nat)
    requires (was.Some? ==> was.value in lives) && (next.Some? ==> next.value in lives)
    ensures SameCounts(lives, AllEntered(AllLeft(lives, was, cpu), next, cpu))
  {
  }

  /** The context was unreferenced and `cpu` was the last processor to run it. */
  predicate LastToLeave(lives: map<nat, Life>, was: Option<nat>, cpu: nat)
    requires was.Some? ==> was.value in lives
  {
    was.Some? && lives[was.value].refs == 0 && lives[was.value].mask <= {cpu}
  }

  /** What may happen to a context that is dying: it can only be left. */
  ghost predicate StaysDying(lives: map<nat, Life>, lives': map<nat, Life>) {
    forall c :: c in lives ==>
      c in lives' && (lives[c].dying ==> lives'[c].dying && lives'[c].refs == 0 && lives'[c].mask <= lives[c].mask)
  }

  ghost predicate Grows(released: map<nat, nat>, released': map<nat, nat>) {
    forall c :: c in released ==> c in released' && released[c] <= released'[c]
  }

  datatype Event = Create(c: nat) | Get(c: nat) | Put(c: nat) | Switch(cpu: nat, next: Option<nat>)

  class Lifecycle {
    var lives: map<nat, Life>
    var slots: seq<Option<nat>>          // `mmu_cpu_context`
    ghost var released: map<nat, nat>    // how often each context was handed to `mmu_context_release`

    ghost predicate Valid()
      reads this
    {
      LifeInv(lives, slots, released)
    }

    constructor ()
      ensures Valid() && lives == map[]
    {
      lives, slots, released := map[], [None, None, None, None], map[];
    }

    method Create(c: nat)
      requires Valid() && c !in lives
      modifies this
      ensures Valid() && lives == old(lives)[c := Life(1, false, {})] && slots == old(slots)
      ensures released == old(released)[c := 0]
    {
      lives := lives[c := Life(1, false, {})];
      released := released[c := 0];
    }

    /**
     A reference is granted to any context that is not dying.  The count is never checked
     for overflow, so the books stay right exactly while it does not wrap.
     */
    method Get(c: nat) returns (ok: bool)
      requires Valid() && c in lives
      modifies this`lives
      ensures ok <==> !old(lives)[c].dying
      ensures lives == if ok then old(lives)[c := old(lives)[c].(refs := (old(lives)[c].refs + 1) % REFS)] else old(lives)
      ensures Valid() <==> old(lives)[c].refs + 1 < REFS
    {
      ok := false;
      var life := lives[c];
      assert Sound(life, released[c]);
      if life.refs != 0 && !life.dying {
        lives := lives[c := life.(refs := (life.refs + 1) % REFS)];
        ok := true;
      }
      assert Sound(lives[c], released[c]) <==> life.refs + 1 < REFS;
    }

    /** The last reference makes the context dying; it is released here unless a processor runs it. */
    method Put(c: nat)
      requires Valid() && c in lives
      modifies this
      ensures Valid() && slots == old(slots)
      ensures lives == if old(lives)[c].refs == 0 then old(lives) else old(lives)[c := old(lives)[c].(refs := old(lives)[c].refs - 1, dying := old(lives)[c].refs == 1)]
      ensures released == if old(lives)[c].refs == 1 && old(lives)[c].mask == {} then old(released)[c := 1] else old(released)
    {
      if lives[c].refs == 0 {
        return;
      }
      var life := lives[c].(refs := lives[c].refs - 1);
      var release := false;
      if life.refs == 0 {
        life := life.(dying := true);
        release := life.mask == {};
      }
      lives := lives[c := life];
      if release {
        released := released[c := released[c] + 1];
      }
    }

    /** Processor `cpu` leaves the context in its slot; a dying one nobody runs any more is released. */
    method Leave(cpu: nat) returns (release: Option<nat>)
      requires Valid() && cpu < CPUS
      modifies this
      ensures Valid() && slots == old(slots)[cpu := None]
      ensures lives == AllLeft(old(lives), old(slots)[cpu], cpu)
      ensures release == if LastToLeave(old(lives), old(slots)[cpu], cpu) then old(slots)[cpu] else None
      ensures released == if release.Some? then old(released)[release.value := 1] else old(released)
    {
      release := None;
      var was := slots[cpu];
      if was.Some? {
        var c := was.value;
        var life := lives[c].(mask := lives[c].mask - {cpu});
        lives := lives[c := life];
        if life.dying && life.refs == 0 && life.mask == {} {
          release := was;
          released := released[c := released[c] + 1];
        }
      }
      slots := slots[cpu := None];
    }

    /** The context asked for is installed unless it is dying. */
    method Enter(cpu: nat, next: Option<nat>) returns (installed: bool)
      requires Valid() && cpu < CPUS && slots[cpu].None? && (next.Some? ==> next.value in lives)
      modifies this`lives, this`slots
      ensures Valid()
      ensures installed <==> next.Some? && !old(lives)[next.value].dying
      ensures slots == if installed then old(slots)[cpu := next] else old(slots)
      ensures lives == AllEntered(old(lives), next, cpu)
    {
      installed := false;
      if next.Some? && !lives[next.value].dying && lives[next.value].refs != 0 {
        var c := next.value;
        lives := lives[c := lives[c].(mask := lives[c].mask + {cpu})];
        slots := slots[cpu := next];
        installed := true;
      }
    }

    /** `mmu_context_switch`, both halves in one region. */
    method Switch(cpu: nat, next: Option<nat>) returns (installed: bool, release: Option<nat>)
      requires Valid() && cpu < CPUS && (next.Some? ==> next.value in lives)
      modifies this
      ensures Valid()
      ensures installed <==> next.Some? && !old(lives)[next.value].dying
      ensures slots == old(slots)[cpu := if installed then next else None]
      ensures release == if LastToLeave(old(lives), old(slots)[cpu], cpu) then old(slots)[cpu] else None
      ensures released == if release.Some? then old(released)[release.value := 1] else old(released)
      ensures lives == AllEntered(AllLeft(old(lives), old(slots)[cpu], cpu), next, cpu)
      ensures SameCounts(old(lives), lives)
    {
      release := Leave(cpu);
      installed := Enter(cpu, next);
      SwitchCounts(old(lives), old(slots)[cpu], next, cpu);
    }

    /** One region; a request for a context that was never created does nothing. */
    method Step(ev: Event)
      requires Valid() && (ev.Get? && ev.c in lives ==> lives[ev.c].refs + 1 < REFS)
      modifies this
      ensures Valid() && StaysDying(old(lives), lives) && Grows(old(released), released)
    {
      match ev {
        case Create(c) =>
          if c !in lives {
            Create(c);
          }
        case Get(c) =>
          if c in lives {
            var ok := Get(c);
          }
        case Put(c) =>
          if c in lives {
            Put(c);
          }
        case Switch(cpu, next) =>
          if cpu < CPUS && (next.Some? ==> next.value in lives) {
            SwitchStays(lives, slots[cpu], next, cpu);
            var installed, release := Switch(cpu, next);
          }
      }
    }

    /**
     Any interleaving of regions: `done` is all of it, or stops before a count would wrap.
     A dying context never revives and no release is ever taken back.
     */
    method Run(evs: seq<Event>) returns (done: nat)
      requires Valid()
      modifies this
      ensures Valid() && StaysDying(old(lives), lives) && Grows(old(released), released)
      ensures done <= |evs|
      ensures done < |evs| ==> evs[done].Get? && evs[done].c in lives && lives[evs[done].c].refs == REFS - 1
    {
      done := 0;
      while done < |evs|
        invariant done <= |evs|
        invariant Valid() && StaysDying(old(lives), lives) && Grows(old(released), released)
      {
        if evs[done].Get? && evs[done].c in lives && lives[evs[done].c].refs == REFS - 1 {
          return;
        }
        Step(evs[done]);
        done := done + 1;
      }
    }
  }

  /** As many references as a 32-bit count can hold, and one more: the context looks unreferenced while it is in use. */
  method CountWraps(c: nat) returns (l: Lifecycle)
    ensures fresh(l) && !l.Valid() && c in l.lives && l.lives[c].refs == 0 && !l.lives[c].dying
  {
    l := new Lifecycle();
    l.Create(c);
    var n := 1;
    while n < REFS - 1
      invariant 1 <= n <= REFS - 1 && fresh(l) && l.Valid() && c in l.lives && l.lives[c] == Life(n, false, {})
    {
      var granted := l.Get(c);
      n := n + 1;
    }
    var last := l.Get(c);
  }

  /** In every reachable state: released at most once, and exactly when unreferenced and in no slot. */
  lemma ReleasedOnce(lives: map<nat, Life>, slots: seq<Option<nat>>, released: map<nat, nat>, c: nat)
    requires LifeInv(lives, slots, released) && c in lives
    ensures released[c] <= 1
    ensures released[c] == 1 <==> lives[c].refs == 0 && forall cpu :: 0 <= cpu < CPUS ==> slots[cpu] != Some(c)
    ensures forall cpu :: 0 <= cpu < CPUS && slots[cpu] == Some(c) ==> cpu in lives[c].mask && released[c] == 0
  {
    assert Sound(lives[c], released[c]);
    if lives[c].mask != {} {
      var cpu :| cpu in lives[c].mask;
      assert slots[cpu] == Some(c);
    }
  }
}
