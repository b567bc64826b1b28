/**
 Symbol resolution in the dynamic linker (`ld_main.c`): the GNU hash of each object, with its
 Bloom filter, buckets and chains, behind a cache of 128 entries replaced in turn.  All of it
 answers as a scan of every object's symbols in order would.
 */
module SymbolLookup {
  import opened Wrappers

  const WORD32: nat := 0x1_0000_0000
  const MAX_OBJECTS: nat := 16
  const CACHE: nat := 128

  type Byte = b: nat | b < 256
  type Name = seq<Byte>

  datatype Symbol = Symbol(name: Name, value: nat, defined: bool)

  /**
   A loaded object.  `hashed` is whether its tables are present; a Bloom word is the set of
   its bits, and `chains` holds a hash for each symbol from `first` on, with the low bit set
   on the last of a bucket.
   */
  datatype Object = Object(base: nat, hashed: bool, syms: seq<Symbol>, first: nat,
                           bloom: seq<set<nat>>, shift: nat, buckets: seq<nat>, chains: seq<nat>)

  // ---------------------------------------------------------------- hashing

  function Hash(name: Name): (h: nat)
    ensures h < WORD32
  {
    if name == [] then 5381 else (Hash(name[..|name| - 1]) * 33 + name[|name| - 1]) % WORD32
  }

  method GnuHash(name: Name) returns (h: nat)
    ensures h == Hash(name) == (5381 * Power33(|name|) + Weighted(name)) % 0x1_0000_0000
  {
    HashIs(name);
    h := 5381;
    for i := 0 to |name|
      invariant h == Hash(name[..i])
    {
      assert name[..i + 1][..i] == name[..i];
      h := (h * 33 + name[i]) % WORD32;
    }
    assert name[..|name|] == name;
  }

  function Power33(n: nat): nat { if n == 0 then 1 else 33 * Power33(n - 1) }

  /** The bytes of a name, the last one with weight 1 and each other with 33 times the weight of the next. */
  function Weighted(name: Name): nat {
    if name == [] then 0 else name[0] * Power33(|name| - 1) + Weighted(name[1..])
  }

  lemma {:induction false} WeightedLast(name: Name, b: Byte)
    ensures Weighted(name + [b]) == 33 * Weighted(name) + b
  {
    if name != [] {
      WeightedLast(name[1..], b);
      assert (name + [b])[1..] == name[1..] + [b];
      assert name[0] * (33 * Power33(|name| - 1)) == 33 * (name[0] * Power33(|name| - 1));
    }
  }

  lemma StepModulo(x: nat, b: nat)
    ensures (x % 0x1_0000_0000 * 33 + b) % 0x1_0000_0000 == (x * 33 + b) % 0x1_0000_0000
  {
    var q := x / 0x1_0000_0000;
    assert x * 33 + b == (x % 0x1_0000_0000 * 33 + b) + (q * 33) * 0x1_0000_0000;
  }

  /** The hash in closed form: 5381 as if it were a byte in front. */
  lemma {:induction false} HashIs(name: Name)
    ensures Hash(name) == (5381 * Power33(|name|) + Weighted(name)) % 0x1_0000_0000
  {
    if name != [] {
      var n := |name| - 1;
      HashIs(name[..n]);
      assert name == name[..n] + [name[n]];
      WeightedLast(name[..n], name[n]);
      StepModulo(5381 * Power33(n) + Weighted(name[..n]), name[n]);
      assert 5381 * Power33(n) * 33 == 5381 * Power33(n + 1);
    }
  }

  function Shifted(h: nat, n: nat): nat
    decreases n
  {
    if n == 0 then h else Shifted(h / 2, n - 1)
  }

  function Power2(n: nat): (p: nat)
    ensures p > 0
  {
    if n == 0 then 1 else 2 * Power2(n - 1)
  }

  /** A shift by `n` bits divides by the power of two, rounding down. */
  lemma {:induction false} ShiftedIs(h: nat, n: nat)
    ensures Shifted(h, n) * Power2(n) <= h < (Shifted(h, n) + 1) * Power2(n)
    decreases n
  {
    if n > 0 {
      ShiftedIs(h / 2, n - 1);
      Doubled(Shifted(h, n), Power2(n - 1));
      Doubled(Shifted(h, n) + 1, Power2(n - 1));
      Halved(h, Shifted(h, n) * Power2(n - 1), (Shifted(h, n) + 1) * Power2(n - 1));
    }
  }

  lemma Doubled(q: nat, p: nat)
    ensures q * (2 * p) == 2 * (q * p)
  {
  }

  lemma Halved(h: nat, lo: nat, hi: nat)
    requires lo <= h / 2 < hi
    ensures 2 * lo <= h < 2 * hi
  {
  }

  /** Equal up to the low bit, which marks the end of a chain. */
  predicate SameHash(c: nat, h: nat) { c / 2 == h / 2 }

  predicate Last(c: nat) { c % 2 == 1 }

  /** Symbol `j` is the last of its chain. */
  predicate Ends(o: Object, j: int)
    requires o.first <= j < o.first + |o.chains|
  {
    Last(o.chains[j - o.first])
  }

  // ---------------------------------------------------------------- well-formed tables

  ghost predicate InBloom(o: Object, h: nat)
    requires |o.bloom| > 0
  {
    var word := o.bloom[h / 64 % |o.bloom|];
    h % 64 in word && Shifted(h, o.shift) % 64 in word
  }

  /** Symbol `i` is filed under its hash: in the filter, in its chain word, and in its bucket's run. */
  ghost predicate Filed(o: Object, i: nat)
    requires |o.bloom| > 0 && |o.buckets| > 0 && o.first <= i < |o.syms| && |o.chains| == |o.syms| - o.first
  {
    var h := Hash(o.syms[i].name);
    var start := o.buckets[h % |o.buckets|];
    && InBloom(o, h) && SameHash(o.chains[i - o.first], h)
    && o.first <= start <= i
    && forall j :: start <= j < i ==> !Ends(o, j)
  }

  ghost predicate WellFormed(o: Object) {
    o.hashed ==>
      && |o.bloom| > 0 && |o.buckets| > 0 && o.first <= |o.syms| && |o.chains| == |o.syms| - o.first
      && (forall i :: o.first <= i < |o.syms| ==> Filed(o, i))
      && (forall b :: 0 <= b < |o.buckets| ==> o.buckets[b] < o.first || o.buckets[b] < |o.syms|)
      && (o.chains != [] ==> Last(o.chains[|o.chains| - 1]))
  }

  // ---------------------------------------------------------------- the reference

  predicate Is(o: Object, i: nat, name: Name)
    requires i < |o.syms|
  {
    o.syms[i].defined && o.syms[i].name == name
  }

  function AddressOf(o: Object, i: nat): nat
    requires i < |o.syms|
  {
    (o.base + o.syms[i].value) % WORD
  }

  /** The first exported symbol of that name from index `i` on. */
  function ScanFrom(o: Object, name: Name, i: nat): (a: nat)
    decreases |o.syms| - i
  {
    if i >= |o.syms| then 0 else if Is(o, i, name) then AddressOf(o, i) else ScanFrom(o, name, i + 1)
  }

  function Scan(o: Object, name: Name): nat {
    if o.hashed then ScanFrom(o, name, o.first) else 0
  }

  /** The first object that gives an address; the address 0 counts as none. */
  function ScanAll(objects: seq<Object>, name: Name): nat {
    if objects == [] then 0
    else
      var n := |objects| - 1;
      var early := ScanAll(objects[..n], name);
      if early != 0 then early else Scan(objects[n], name)
  }

  lemma {:induction false} ScanFound(o: Object, name: Name, i: nat, k: nat)
    requires i <= k < |o.syms| && Is(o, k, name) && forall j :: i <= j < k ==> !Is(o, j, name)
    ensures ScanFrom(o, name, i) == AddressOf(o, k)
    decreases k - i
  {
    if i < k {
      ScanFound(o, name, i + 1, k);
    }
  }

  lemma {:induction false} ScanNone(o: Object, name: Name, i: nat)
    requires forall j :: i <= j < |o.syms| ==> !Is(o, j, name)
    ensures ScanFrom(o, name, i) == 0
    decreases |o.syms| - i
  {
    if i < |o.syms| {
      ScanNone(o, name, i + 1);
    }
  }

  // ---------------------------------------------------------------- what an answer means

  /** Symbol `i` of the object is one it exports under that name; symbols before `first` are not. */
  ghost predicate Exports(o: Object, name: Name, i: nat) {
    o.hashed && o.first <= i < |o.syms| && o.syms[i].defined && o.syms[i].name == name
  }

  ghost predicate FirstExport(o: Object, name: Name, i: nat) {
    Exports(o, name, i) && forall j: nat :: j < i ==> !Exports(o, name, j)
  }

  /** The object's answer: where its first symbol of the name is loaded, 0 for none. */
  ghost predicate Gives(o: Object, name: Name, addr: nat) {
    && (forall i: nat :: FirstExport(o, name, i) ==> addr == (o.base + o.syms[i].value) % 0x1_0000_0000_0000_0000)
    && ((forall i: nat :: !Exports(o, name, i)) ==> addr == 0)
  }

  lemma {:induction false} ScanFromGives(o: Object, name: Name, i: nat)
    requires o.hashed && o.first <= i <= |o.syms| && forall j: nat :: j < i ==> !Exports(o, name, j)
    ensures Gives(o, name, ScanFrom(o, name, i))
    decreases |o.syms| - i
  {
    if i < |o.syms| && !Is(o, i, name) {
      ScanFromGives(o, name, i + 1);
    } else if i < |o.syms| {
      assert Exports(o, name, i);
    }
  }

  lemma ScanGives(o: Object, name: Name)
    ensures Gives(o, name, Scan(o, name))
  {
    if o.hashed && o.first <= |o.syms| {
      ScanFromGives(o, name, o.first);
    }
  }

  /** A least index below `k` with an export, if there is one at `k`. */
  lemma {:induction false} LeastExport(o: Object, name: Name, k: nat) returns (i: nat)
    requires Exports(o, name, k)
    ensures i <= k && FirstExport(o, name, i)
  {
    if j: nat :| j < k && Exports(o, name, j) {
      i := LeastExport(o, name, j);
    } else {
      i := k;
    }
  }

  /** None of the first `n` objects gives an address: each defines no such symbol, or its first at address 0. */
  ghost predicate NoneGives(objects: seq<Object>, n: nat, name: Name)
    requires n <= |objects|
  {
    forall k: nat, i: nat :: k < n && FirstExport(objects[k], name, i) ==>
      (objects[k].base + objects[k].syms[i].value) % 0x1_0000_0000_0000_0000 == 0
  }

  /** `addr` is the load address of the first symbol of the name in the first object that gives one. */
  ghost predicate Resolves(objects: seq<Object>, name: Name, addr: nat) {
    if addr == 0 then NoneGives(objects, |objects|, name)
    else exists k: nat, i: nat :: ResolvedAt(objects, name, addr, k, i)
  }

  ghost predicate ResolvedAt(objects: seq<Object>, name: Name, addr: nat, k: nat, i: nat) {
    && k < |objects| && FirstExport(objects[k], name, i)
    && addr == (objects[k].base + objects[k].syms[i].value) % 0x1_0000_0000_0000_0000
    && NoneGives(objects, k, name)
  }

  lemma {:induction false} ScanAllResolves(objects: seq<Object>, name: Name)
    ensures Resolves(objects, name, ScanAll(objects, name))
  {
    if objects != [] {
      var n := |objects| - 1;
      ScanAllResolves(objects[..n], name);
      if ScanAll(objects[..n], name) != 0 {
        var k: nat, i: nat :| ResolvedAt(objects[..n], name, ScanAll(objects[..n], name), k, i);
        assert ResolvedAt(objects, name, ScanAll(objects, name), k, i);
      } else {
        forall k: nat, i: nat | k < n && FirstExport(objects[k], name, i)
          ensures (objects[k].base + objects[k].syms[i].value) % 0x1_0000_0000_0000_0000 == 0
        {
          assert objects[..n][k] == objects[k];
        }
        LastGives(objects, name);
      }
    }
  }

  lemma LastGives(objects: seq<Object>, name: Name)
    requires objects != [] && NoneGives(objects, |objects| - 1, name)
    ensures Resolves(objects, name, Scan(objects[|objects| - 1], name))
  {
    var n := |objects| - 1;
    var o, addr := objects[n], Scan(objects[n], name);
    ScanGives(o, name);
    if addr != 0 {
      var j: nat :| Exports(o, name, j);
      var i := LeastExport(o, name, j);
      assert ResolvedAt(objects, name, addr, n, i);
    } else {
      assert NoneGives(objects, |objects|, name);
    }
  }

  /** There is one answer. */
  lemma OneAnswer(objects: seq<Object>, name: Name, a: nat, b: nat)
    requires Resolves(objects, name, a) && Resolves(objects, name, b)
    ensures a == b
  {
    if a != 0 && b != 0 {
      var k: nat, i: nat :| ResolvedAt(objects, name, a, k, i);
      var l: nat, j: nat :| ResolvedAt(objects, name, b, l, j);
      assert k == l && i == j;
    }
  }

  // ---------------------------------------------------------------- the code

  /** A symbol of this name, if any, lies on the chain of its bucket. */
  lemma OnChain(o: Object, name: Name, i: nat)
    requires WellFormed(o) && o.hashed && o.first <= i < |o.syms| && o.syms[i].name == name
    ensures var h := Hash(name);
      && InBloom(o, h) && SameHash(o.chains[i - o.first], h) && o.first <= o.buckets[h % |o.buckets|] <= i
      && forall j :: o.buckets[h % |o.buckets|] <= j < i ==> !Ends(o, j)
  {
    assert Filed(o, i);
  }

  lemma NoneFiled(o: Object, name: Name)
    requires WellFormed(o) && o.hashed
    requires !InBloom(o, Hash(name)) || o.buckets[Hash(name) % |o.buckets|] < o.first
    ensures Scan(o, name) == 0
  {
    forall i | o.first <= i < |o.syms| ensures !Is(o, i, name) {
      if Is(o, i, name) {
        OnChain(o, name, i);
      }
    }
    ScanNone(o, name, o.first);
  }

  /** The end of a chain: whatever lies beyond is not this name. */
  lemma ChainEnds(o: Object, name: Name, k: nat)
    requires WellFormed(o) && o.hashed && o.first <= o.buckets[Hash(name) % |o.buckets|] <= k < |o.syms| && Ends(o, k)
    requires forall j :: o.buckets[Hash(name) % |o.buckets|] <= j <= k ==> !Is(o, j, name)
    ensures Scan(o, name) == 0
  {
    forall i | o.first <= i < |o.syms| ensures !Is(o, i, name) {
      if Is(o, i, name) {
        OnChain(o, name, i);
      }
    }
    ScanNone(o, name, o.first);
  }

  /** `ld_lookup_gnu_hash`: filter, bucket, chain. */
  method LookupHash(o: Object, name: Name) returns (addr: nat)
    requires WellFormed(o)
    ensures addr == Scan(o, name) && Gives(o, name, addr)
  {
    addr := SearchChain(o, name);
    ScanGives(o, name);
  }

  /** Its body. */
  method SearchChain(o: Object, name: Name) returns (addr: nat)
    requires WellFormed(o)
    ensures addr == Scan(o, name)
  {
    if !o.hashed {
      return 0;
    }
    var h := GnuHash(name);
    var word := o.bloom[h / 64 % |o.bloom|];
    if !(h % 64 in word && Shifted(h, o.shift) % 64 in word) {
      NoneFiled(o, name);
      return 0;
    }
    var start := o.buckets[h % |o.buckets|];
    if start < o.first {
      NoneFiled(o, name);
      return 0;
    }
    var i := start;
    while true
      invariant start <= i < |o.syms|
      invariant forall j :: start <= j < i ==> !Is(o, j, name) && !Ends(o, j)
      decreases |o.syms| - i
    {
      var c := o.chains[i - o.first];
      if SameHash(c, h) && Is(o, i, name) {
        FoundFirst(o, name, start, i);
        return AddressOf(o, i);
      }
      if Is(o, i, name) {
        OnChain(o, name, i);
        assert false;                    // its chain word carries its hash
      }
      if Last(c) {
        ChainEnds(o, name, i);
        return 0;
      }
      i := i + 1;
    }
  }

  lemma FoundFirst(o: Object, name: Name, start: nat, k: nat)
    requires WellFormed(o) && o.hashed && start == o.buckets[Hash(name) % |o.buckets|] && o.first <= start <= k < |o.syms|
    requires Is(o, k, name) && forall j :: start <= j < k ==> !Is(o, j, name)
    ensures Scan(o, name) == AddressOf(o, k)
  {
    forall i | o.first <= i < k ensures !Is(o, i, name) {
      if Is(o, i, name) {
        OnChain(o, name, i);
      }
    }
    ScanFound(o, name, o.first, k);
  }

  datatype Entry = Entry(name: Name, addr: nat)

  predicate Cached(cache: seq<Option<Entry>>, name: Name) {
    exists i :: 0 <= i < |cache| && cache[i].Some? && cache[i].value.name == name
  }

  class Linker {
    var objects: seq<Object>
    var cache: seq<Option<Entry>>
    var next: nat

    /** Every cached answer is the one a scan would give, now and after more objects load. */
    ghost predicate Valid()
      reads this
    {
      && |objects| <= MAX_OBJECTS && (forall i :: 0 <= i < |objects| ==> WellFormed(objects[i]))
      && |cache| == CACHE && next < CACHE
      && (forall i :: 0 <= i < CACHE && cache[i].Some? ==>
            cache[i].value.addr != 0 && cache[i].value.addr == ScanAll(objects, cache[i].value.name))
    }

    constructor ()
      ensures Valid() && objects == []
    {
      objects, next := [], 0;
      cache := seq(CACHE, _ => None);
    }

    /** Another object is loaded, where the table has room. */
    method Append(o: Object) returns (ok: bool)
      requires Valid() && WellFormed(o)
      modifies this`objects
      ensures Valid() && ok == (|old(objects)| < 16)
      ensures objects == if ok then old(objects) + [o] else old(objects)
    {
      if |objects| >= MAX_OBJECTS {
        return false;
      }
      assert (objects + [o])[..|objects|] == objects;
      objects := objects + [o];
      ok := true;
    }

    /** `ld_lookup_symbol`: where the first object in load order that gives an address has the name. */
    method Lookup(name: Name) returns (addr: nat)
      requires Valid()
      modifies this`cache, this`next
      ensures Valid() && addr == ScanAll(objects, name) && Resolves(objects, name, addr)
    {
      addr := LookupInternal(name);
      ScanAllResolves(objects, name);
    }

    /** `ld_lookup_symbol_internal`: the cache, then every object. */
    method LookupInternal(name: Name) returns (addr: nat)
      requires Valid()
      modifies this`cache, this`next
      ensures Valid() && addr == ScanAll(objects, name)
      ensures if addr == 0 || Cached(old(cache), name) then cache == old(cache) && next == old(next)
              else cache == old(cache)[old(next) := Some(Entry(name, addr))] && next == (old(next) + 1) % 128
    {
      for i := 0 to CACHE
        invariant Valid() && cache == old(cache) && next == old(next)
        invariant forall j :: 0 <= j < i && cache[j].Some? ==> cache[j].value.name != name
      {
        if cache[i].Some? && cache[i].value.name == name {
          return cache[i].value.addr;
        }
      }
      for i := 0 to |objects|
        invariant Valid() && cache == old(cache) && next == old(next)
        invariant ScanAll(objects[..i], name) == 0
      {
        addr := SearchChain(objects[i], name);
        assert objects[..i + 1][..i] == objects[..i];
        if addr != 0 {
          ScanPrefix(objects, name, i + 1);
          cache := cache[next := Some(Entry(name, addr))];
          next := (next + 1) % CACHE;
          return;
        }
      }
      assert objects[..|objects|] == objects;
      addr := 0;
    }
  }

  /** What the first objects answer, all of them answer. */
  lemma {:induction false} ScanPrefix(objects: seq<Object>, name: Name, n: nat)
    requires n <= |objects| && ScanAll(objects[..n], name) != 0
    ensures ScanAll(objects, name) == ScanAll(objects[..n], name)
  {
    if n < |objects| {
      assert objects[..|objects| - 1][..n] == objects[..n];
      ScanPrefix(objects[..|objects| - 1], name, n);
    } else {
      assert objects[..n] == objects;
    }
  }
}
