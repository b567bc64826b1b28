/**
 Lazy and eager binding of PLT slots (`ld_lazy_resolve`, `ld_relocate_object`): whatever the
 order of first calls and of objects loaded meanwhile, a slot ends with the value that
 BIND_NOW would have written.
 */
module Binding {
  import opened SymbolLookup
  import opened Wrappers

  /** An entry of the PLT relocation table, with the name of its symbol. */
  datatype Reloc = Reloc(offset: nat, name: Name, addend: nat)

  function Slot(base: nat, r: Reloc): nat { (r.offset + base) % WORD }

  function Bound(objects: seq<Object>, r: Reloc): nat { (ScanAll(objects, r.name) + r.addend) % WORD }

  ghost predicate Resolvable(objects: seq<Object>, r: Reloc) { ScanAll(objects, r.name) != 0 }

  /** The slots are words of memory and no two relocations share one. */
  ghost predicate Distinct(words: map<nat, nat>, base: nat, rels: seq<Reloc>) {
    && (forall i :: 0 <= i < |rels| ==> Slot(base, rels[i]) in words)
    && (forall i, j :: 0 <= i < j < |rels| ==> Slot(base, rels[i]) != Slot(base, rels[j]))
  }

  /** The slot is bound if `bound`, and otherwise as it was. */
  ghost predicate SlotHolds(was: map<nat, nat>, now: map<nat, nat>, base: nat, r: Reloc, objects: seq<Object>, bound: bool) {
    var a := Slot(base, r);
    a in was && a in now && now[a] == if bound then Bound(objects, r) else was[a]
  }

  /** Every resolvable slot below `n` is bound, and nothing else changed. */
  ghost predicate Written(was: map<nat, nat>, now: map<nat, nat>, base: nat, rels: seq<Reloc>, n: nat, objects: seq<Object>)
    requires n <= |rels|
  {
    && now.Keys == was.Keys
    && (forall i :: 0 <= i < n ==> SlotHolds(was, now, base, rels[i], objects, Resolvable(objects, rels[i])))
    && (forall a :: a in was && (forall i :: 0 <= i < n ==> a != Slot(base, rels[i])) ==> now[a] == was[a])
  }

  /** `w` is where the name is defined first in load order, plus the addend. */
  ghost predicate BindsTo(objects: seq<Object>, r: Reloc, w: nat) {
    exists addr: nat :: addr != 0 && Resolves(objects, r.name, addr) && w == (addr + r.addend) % 0x1_0000_0000_0000_0000
  }

  /** What `Bound` and `Resolvable` mean, symbol by symbol. */
  lemma BoundMeans(objects: seq<Object>, r: Reloc)
    ensures Resolvable(objects, r) <==> !Resolves(objects, r.name, 0)
    ensures Resolvable(objects, r) ==> BindsTo(objects, r, Bound(objects, r))
  {
    ScanAllResolves(objects, r.name);
    if Resolves(objects, r.name, 0) {
      OneAnswer(objects, r.name, 0, ScanAll(objects, r.name));
    }
  }

  lemma WroteOne(was: map<nat, nat>, now: map<nat, nat>, base: nat, rels: seq<Reloc>, n: nat, objects: seq<Object>)
    requires n < |rels| && Distinct(was, base, rels) && Written(was, now, base, rels, n, objects)
    ensures Written(was, if Resolvable(objects, rels[n]) then now[Slot(base, rels[n]) := Bound(objects, rels[n])] else now, base, rels, n + 1, objects)
  {
  }

  datatype Event = Call(slot: nat) | Load(o: Object)

  class Binder {
    const linker: Linker
    var words: map<nat, nat>             // memory, by address

    constructor (linker: Linker, words: map<nat, nat>)
      ensures this.linker == linker && this.words == words
    {
      this.linker, this.words := linker, words;
    }

    /** The BIND_NOW branch of `ld_relocate_object`. */
    method BindNow(base: nat, rels: seq<Reloc>)
      requires linker.Valid() && Distinct(words, base, rels)
      modifies this, linker`cache, linker`next
      ensures linker.Valid() && Written(old(words), words, base, rels, |rels|, linker.objects)
      ensures forall i :: 0 <= i < |rels| ==>
        var a := (rels[i].offset + base) % 0x1_0000_0000_0000_0000;
        if Resolves(linker.objects, rels[i].name, 0) then words[a] == old(words)[a] else BindsTo(linker.objects, rels[i], words[a])
    {
      BindSlots(base, rels);
      forall i | 0 <= i < |rels|
        ensures var a := (rels[i].offset + base) % 0x1_0000_0000_0000_0000;
          if Resolves(linker.objects, rels[i].name, 0) then words[a] == old(words)[a] else BindsTo(linker.objects, rels[i], words[a])
      {
        BoundMeans(linker.objects, rels[i]);
        assert SlotHolds(old(words), words, base, rels[i], linker.objects, Resolvable(linker.objects, rels[i]));
      }
    }

    /** Its loop. */
    method BindSlots(base: nat, rels: seq<Reloc>)
      requires linker.Valid() && Distinct(words, base, rels)
      modifies this, linker`cache, linker`next
      ensures linker.Valid() && Written(old(words), words, base, rels, |rels|, linker.objects)
    {
      for i := 0 to |rels|
        invariant linker.Valid() && Written(old(words), words, base, rels, i, linker.objects)
      {
        WroteOne(old(words), words, base, rels, i, linker.objects);
        BindOne(base, rels[i]);
      }
    }

    method BindOne(base: nat, r: Reloc)
      requires linker.Valid() && Slot(base, r) in words
      modifies this, linker`cache, linker`next
      ensures linker.Valid()
      ensures words == if Resolvable(linker.objects, r) then old(words)[Slot(base, r) := Bound(linker.objects, r)] else old(words)
    {
      var addr := linker.LookupInternal(r.name);
      if addr != 0 {
        words := words[Slot(base, r) := (addr + r.addend) % WORD];
      }
    }

    /** The lazy branch: each slot still points to the PLT stub, shifted by the load bias. */
    method BiasSlots(base: nat, rels: seq<Reloc>)
      requires Distinct(words, base, rels)
      modifies this`words
      ensures words.Keys == old(words).Keys
      ensures forall i :: 0 <= i < |rels| ==> words[Slot(base, rels[i])] == (old(words)[Slot(base, rels[i])] + base) % WORD
      ensures forall a :: a in old(words) && (forall i :: 0 <= i < |rels| ==> a != Slot(base, rels[i])) ==> words[a] == old(words)[a]
    {
      for n := 0 to |rels|
        invariant words.Keys == old(words).Keys
        invariant forall i :: 0 <= i < n ==> words[Slot(base, rels[i])] == (old(words)[Slot(base, rels[i])] + base) % WORD
        invariant forall a :: a in old(words) && (forall i :: 0 <= i < n ==> a != Slot(base, rels[i])) ==> words[a] == old(words)[a]
      {
        var a := Slot(base, rels[n]);
        words := words[a := (words[a] + base) % WORD];
      }
    }

    /** `ld_lazy_resolve` for the slot at `got`; `ok` is false where it gives up. */
    method Resolve(base: nat, rels: seq<Reloc>, got: nat) returns (ok: bool, target: nat)
      requires linker.Valid() && Distinct(words, base, rels)
      modifies this, linker`cache, linker`next
      ensures linker.Valid() && words == if ok then old(words)[got := target] else old(words)
      ensures forall i :: 0 <= i < |rels| && (rels[i].offset + base) % 0x1_0000_0000_0000_0000 == got ==>
        (ok <==> !Resolves(linker.objects, rels[i].name, 0)) && (ok ==> BindsTo(linker.objects, rels[i], target))
      ensures (forall i :: 0 <= i < |rels| ==> (rels[i].offset + base) % 0x1_0000_0000_0000_0000 != got) ==> !ok
    {
      ok, target := ResolveSlot(base, rels, got);
      forall i | 0 <= i < |rels| && Slot(base, rels[i]) == got
        ensures (ok <==> !Resolves(linker.objects, rels[i].name, 0)) && (ok ==> BindsTo(linker.objects, rels[i], target))
      {
        BoundMeans(linker.objects, rels[i]);
      }
    }

    /** Its body. */
    method ResolveSlot(base: nat, rels: seq<Reloc>, got: nat) returns (ok: bool, target: nat)
      requires linker.Valid() && Distinct(words, base, rels)
      modifies this, linker`cache, linker`next
      ensures linker.Valid() && words.Keys == old(words).Keys
      ensures forall i :: 0 <= i < |rels| && Slot(base, rels[i]) == got ==>
        ok == Resolvable(linker.objects, rels[i]) && (ok ==> target == Bound(linker.objects, rels[i]) && words == old(words)[got := target])
      ensures (forall i :: 0 <= i < |rels| ==> Slot(base, rels[i]) != got) ==> !ok
      ensures !ok ==> words == old(words)
    {
      for i := 0 to |rels|
        invariant linker.Valid() && words == old(words) && linker.objects == old(linker.objects)
        invariant forall j :: 0 <= j < i ==> Slot(base, rels[j]) != got
      {
        if Slot(base, rels[i]) == got {
          var addr := linker.LookupInternal(rels[i].name);
          if addr != 0 {
            target := (addr + rels[i].addend) % WORD;
            words := words[got := target];
            return true, target;
          }
          return false, 0;
        }
      }
      return false, 0;
    }

    /**
     Any interleaving of first calls, later calls and loads.  A slot that was called holds, at
     the end, exactly what the eager branch would write with all objects loaded; one that was
     not called still holds what it held, as does every word that is no slot.
     */
    method Run(base: nat, rels: seq<Reloc>, evs: seq<Event>)
      requires linker.Valid() && Distinct(words, base, rels)
      requires forall i :: 0 <= i < |rels| ==> Resolvable(linker.objects, rels[i])
      requires forall k :: 0 <= k < |evs| ==> if evs[k].Call? then evs[k].slot < |rels| else WellFormed(evs[k].o)
      modifies this, linker
      ensures linker.Valid() && words.Keys == old(words).Keys
      ensures forall i :: 0 <= i < |rels| ==> Resolvable(linker.objects, rels[i]) && SlotHolds(old(words), words, base, rels[i], linker.objects, Call(i) in evs)
      ensures forall a :: a in old(words) && (forall i :: 0 <= i < |rels| ==> a != Slot(base, rels[i])) ==> words[a] == old(words)[a]
    {
      for k := 0 to |evs|
        invariant linker.Valid() && words.Keys == old(words).Keys
        invariant forall i :: 0 <= i < |rels| ==> Resolvable(linker.objects, rels[i])
        invariant forall i :: 0 <= i < |rels| ==> SlotHolds(old(words), words, base, rels[i], linker.objects, Call(i) in evs[..k])
        invariant forall a :: a in old(words) && (forall i :: 0 <= i < |rels| ==> a != Slot(base, rels[i])) ==> words[a] == old(words)[a]
      {
        assert evs[..k + 1] == evs[..k] + [evs[k]];
        if evs[k].Call? {
          var ok, target := ResolveSlot(base, rels, Slot(base, rels[evs[k].slot]));
        } else {
          Stable(linker.objects, rels, evs[k].o);
          var ok := linker.Append(evs[k].o);
        }
      }
      assert evs[..|evs|] == evs;
    }

    /**
     A whole lazy life: the slots start at their stubs, moved by the load bias, and each is
     bound by its first call.
     */
    method RunLazily(base: nat, rels: seq<Reloc>, evs: seq<Event>)
      requires linker.Valid() && Distinct(words, base, rels)
      requires forall i :: 0 <= i < |rels| ==> Resolvable(linker.objects, rels[i])
      requires forall k :: 0 <= k < |evs| ==> if evs[k].Call? then evs[k].slot < |rels| else WellFormed(evs[k].o)
      modifies this, linker
      ensures linker.Valid() && words.Keys == old(words).Keys
      ensures forall i :: 0 <= i < |rels| ==>
        words[Slot(base, rels[i])] ==
          if Call(i) in evs then Bound(linker.objects, rels[i]) else (old(words)[Slot(base, rels[i])] + base) % WORD
      ensures forall i :: 0 <= i < |rels| && Call(i) in evs ==> BindsTo(linker.objects, rels[i], words[Slot(base, rels[i])])
      ensures forall a :: a in old(words) && (forall i :: 0 <= i < |rels| ==> a != Slot(base, rels[i])) ==> words[a] == old(words)[a]
    {
      BiasSlots(base, rels);
      ghost var stubs := words;
      Run(base, rels, evs);
      forall i | 0 <= i < |rels|
        ensures words[Slot(base, rels[i])] ==
          if Call(i) in evs then Bound(linker.objects, rels[i]) else (old(words)[Slot(base, rels[i])] + base) % WORD
        ensures Call(i) in evs ==> BindsTo(linker.objects, rels[i], words[Slot(base, rels[i])])
      {
        BoundMeans(linker.objects, rels[i]);
        assert SlotHolds(stubs, words, base, rels[i], linker.objects, Call(i) in evs);
      }
    }
  }

  /** A symbol once found keeps its address when more objects load. */
  lemma Stable(objects: seq<Object>, rels: seq<Reloc>, o: Object)
    requires forall i :: 0 <= i < |rels| ==> Resolvable(objects, rels[i])
    ensures forall i :: 0 <= i < |rels| ==> Resolvable(objects + [o], rels[i]) && Bound(objects + [o], rels[i]) == Bound(objects, rels[i])
  {
    assert (objects + [o])[..|objects|] == objects;
    forall i | 0 <= i < |rels| ensures ScanAll(objects + [o], rels[i].name) == ScanAll(objects, rels[i].name) {
      assert Resolvable(objects, rels[i]);
      ScanPrefix(objects + [o], rels[i].name, |objects|);
    }
  }
}
