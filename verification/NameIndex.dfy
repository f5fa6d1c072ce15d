/**
  The name index of the resolver (grammar/c/wok_resolve.c:64-144): open addressing
  over FNV-1a with linear probing, a capacity fixed before the first insert, and no
  deletion. One index serves the effect, fixity and alias tables.
*/
module NameIndex {

  type Name = seq<bv8>

  /** FNV-1a over the bytes of a name, wrapping at 32 bits. */
  function Fnv1a(h: bv32, s: Name): bv32
    decreases |s|
  {
    if s == [] then h else Fnv1a((h ^ (s[0] as bv32)) * 16777619, s[1..])
  }

  /** The first slot probed for `name`. The capacity is a power of two, so the source's `& mask` is `% cap`. */
  function Start(name: Name, cap: nat): (k: nat)
    requires cap > 0
    ensures k < cap
  {
    (Fnv1a(2166136261, name) as nat) % cap
  }

  /** One probe step, `(k + 1) & mask`. */
  function Next(k: nat, cap: nat): nat
    requires k < cap
  {
    if k + 1 == cap then 0 else k + 1
  }

  /** The slot met after `d` steps from slot `k`. */
  function Probe(k: nat, d: nat, cap: nat): (s: nat)
    requires k < cap && d < cap
    ensures s < cap
  {
    if k + d < cap then k + d else k + d - cap
  }

  /** How many steps from slot `k` meet slot `s`. */
  function Distance(k: nat, s: nat, cap: nat): (d: nat)
    requires k < cap && s < cap
    ensures d < cap && Probe(k, d, cap) == s
  {
    if s >= k then s - k else s + cap - k
  }

  /** A set of slots smaller than the table leaves one of them free. */
  lemma {:induction false} FreeSlotExists(used: set<nat>, cap: nat) returns (s: nat)
    requires forall u :: u in used ==> u < cap
    requires |used| < cap
    ensures s < cap && s !in used
  {
    if cap - 1 !in used {
      s := cap - 1;
    } else {
      s := FreeSlotExists(used - {cap - 1}, cap - 1);
    }
  }

  /** The probe table as values: `ks[s]` names the occupant of slot `s`, `es[s] == -1` marks it free. */
  ghost predicate Table(ks: seq<Name>, es: seq<int>)
  {
    |ks| == |es| > 0
  }

  /** The slot `d` probes from `start` is occupied by another name. */
  ghost predicate Passed(ks: seq<Name>, es: seq<int>, start: nat, name: Name, d: nat)
    requires Table(ks, es) && start < |es| && d < |es|
  {
    es[Probe(start, d, |es|)] != -1 && ks[Probe(start, d, |es|)] != name
  }

  /** `name` sits `d` probes from `start`, behind occupied slots holding other names. */
  ghost predicate FoundAt(ks: seq<Name>, es: seq<int>, start: nat, name: Name, d: nat)
    requires Table(ks, es) && start < |es|
  {
    && d < |es|
    && es[Probe(start, d, |es|)] != -1 && ks[Probe(start, d, |es|)] == name
    && forall e: nat | e < d :: Passed(ks, es, start, name, e)
  }

  ghost predicate Found(ks: seq<Name>, es: seq<int>, name: Name)
    requires Table(ks, es)
  {
    exists d: nat :: FoundAt(ks, es, Start(name, |es|), name, d)
  }

  /** A free slot met before `name` shows that `name` is absent. */
  lemma FreeEndsProbe(ks: seq<Name>, es: seq<int>, name: Name, d: nat)
    requires Table(ks, es) && d < |es|
    requires es[Probe(Start(name, |es|), d, |es|)] == -1
    requires forall e: nat | e < d :: Passed(ks, es, Start(name, |es|), name, e)
    ensures !Found(ks, es, name)
  {
    var start := Start(name, |es|);
    forall at: nat
      ensures !FoundAt(ks, es, start, name, at)
    {
      assert at < d ==> Passed(ks, es, start, name, at);
      assert d < at < |es| ==> !Passed(ks, es, start, name, d);
    }
  }

  /** `ks2`, `es2` is the table after claiming the free slot `k`. */
  ghost predicate Filled(ks: seq<Name>, es: seq<int>, k: nat, ks2: seq<Name>, es2: seq<int>)
  {
    && Table(ks, es) && Table(ks2, es2) && |es2| == |es|
    && k < |es| && es[k] == -1 && es2[k] != -1
    && forall s: nat | s < |es| && s != k :: ks2[s] == ks[s] && es2[s] == es[s]
  }

  lemma FillKeepsPassed(ks: seq<Name>, es: seq<int>, k: nat, ks2: seq<Name>, es2: seq<int>,
                        start: nat, name: Name, d: nat)
    requires Filled(ks, es, k, ks2, es2) && start < |es| && d < |es|
    requires forall e: nat | e < d :: Passed(ks, es, start, name, e)
    ensures forall e: nat | e < d :: Passed(ks2, es2, start, name, e)
  {
    forall e: nat | e < d
      ensures Passed(ks2, es2, start, name, e)
    {
      assert Passed(ks, es, start, name, e);
    }
  }

  /** Claiming a free slot keeps every other name findable where it was. */
  lemma FillKeeps(ks: seq<Name>, es: seq<int>, k: nat, ks2: seq<Name>, es2: seq<int>, other: Name)
    requires Filled(ks, es, k, ks2, es2)
    requires Found(ks, es, other)
    ensures Found(ks2, es2, other)
  {
    var start := Start(other, |es|);
    var d: nat :| FoundAt(ks, es, start, other, d);
    FillKeepsPassed(ks, es, k, ks2, es2, start, other, d);
    assert FoundAt(ks2, es2, start, other, d);
  }

  /** The probe table `ks`, `es` holds exactly the finite map `m`; `used` are its occupied slots. */
  ghost predicate Holds(ks: seq<Name>, es: seq<int>, m: map<Name, nat>, used: set<nat>)
  {
    && Table(ks, es)
    && |used| == |m|
    && (forall s: nat :: s in used <==> s < |es| && es[s] != -1)
    && (forall s: nat | s < |es| && es[s] != -1 :: ks[s] in m && es[s] == m[ks[s]])
    && (forall name {:trigger Found(ks, es, name)} | name in m :: Found(ks, es, name))
  }

  lemma FillHolds(ks: seq<Name>, es: seq<int>, m: map<Name, nat>, used: set<nat>, k: nat,
                  ks2: seq<Name>, es2: seq<int>, d: nat)
    requires Holds(ks, es, m, used) && Filled(ks, es, k, ks2, es2)
    requires ks2[k] !in m && es2[k] >= 0
    requires d < |es| && k == Probe(Start(ks2[k], |es|), d, |es|)
    requires forall e: nat | e < d :: Passed(ks, es, Start(ks2[k], |es|), ks2[k], e)
    ensures Holds(ks2, es2, m[ks2[k] := es2[k]], used + {k})
  {
    hide Found, Start;
    NewIsFound(ks, es, k, ks2, es2, d);
    forall other | other in m
      ensures Found(ks2, es2, other)
    {
      assert Found(ks, es, other);
      FillKeeps(ks, es, k, ks2, es2, other);
    }
    FillSlots(ks, es, m, used, k, ks2, es2);
  }

  lemma FillSlots(ks: seq<Name>, es: seq<int>, m: map<Name, nat>, used: set<nat>, k: nat,
                  ks2: seq<Name>, es2: seq<int>)
    requires Holds(ks, es, m, used) && Filled(ks, es, k, ks2, es2)
    requires ks2[k] !in m && es2[k] >= 0
    ensures |used + {k}| == |m[ks2[k] := es2[k]]|
    ensures forall s: nat :: s in used + {k} <==> s < |es2| && es2[s] != -1
    ensures forall s: nat | s < |es2| && es2[s] != -1 ::
              ks2[s] in m[ks2[k] := es2[k]] && es2[s] == m[ks2[k] := es2[k]][ks2[s]]
  {
    hide Found;
  }

  lemma NewIsFound(ks: seq<Name>, es: seq<int>, k: nat, ks2: seq<Name>, es2: seq<int>, d: nat)
    requires Filled(ks, es, k, ks2, es2)
    requires d < |es| && k == Probe(Start(ks2[k], |es|), d, |es|)
    requires forall e: nat | e < d :: Passed(ks, es, Start(ks2[k], |es|), ks2[k], e)
    ensures Found(ks2, es2, ks2[k])
  {
    var start := Start(ks2[k], |es|);
    FillKeepsPassed(ks, es, k, ks2, es2, start, ks2[k], d);
    assert FoundAt(ks2, es2, start, ks2[k], d);
  }

  class NameIdx {
    const key: array<Name>
    const entry: array<int>  // -1 where the source stores UINT32_MAX: a free slot
    ghost const maxEntries: nat
    ghost var Contents: map<Name, nat>
    ghost var Used: set<nat>

    ghost predicate Valid()
      reads this, key, entry
    {
      && entry.Length >= 8 && entry.Length >= 2 * maxEntries
      && |Contents| <= maxEntries
      && Holds(key[..], entry[..], Contents, Used)
    }

    constructor (max: nat)
      ensures Valid() && Contents == map[] && maxEntries == max
      ensures fresh(key) && fresh(entry)
    {
      var cap := 8;
      while cap < max * 2
        invariant cap >= 8
      {
        cap := cap * 2;
      }
      key := new Name[cap](_ => []);
      entry := new int[cap](_ => -1);
      maxEntries := max;
      Contents := map[];
      Used := {};
    }

    /** Exactly what a finite map answers. The probe stops because the load is at most one half. */
    method Find(name: Name) returns (r: int)
      requires Valid()
      ensures r == if name in Contents then Contents[name] else -1
    {
      var cap := entry.Length;
      var k := Start(name, cap);
      ghost var start := k;
      ghost var free := FreeSlotExists(Used, cap);
      ghost var stop := Distance(start, free, cap);
      ghost var d: nat := 0;
      while true
        invariant d <= stop && k == Probe(start, d, cap)
        invariant forall e: nat | e < d :: Passed(key[..], entry[..], start, name, e)
        decreases stop - d
      {
        if entry[k] == -1 {
          FreeEndsProbe(key[..], entry[..], name, d);
          return -1;
        }
        if key[k] == name {
          return entry[k];
        }
        assert Passed(key[..], entry[..], start, name, d);
        k := Next(k, cap);
        d := d + 1;
      }
    }

    /** The first free slot on the probe path of `name`. */
    method FreeSlot(name: Name) returns (k: nat, ghost d: nat)
      requires Valid()
      requires name !in Contents && |Contents| < maxEntries
      ensures d < entry.Length && k == Probe(Start(name, entry.Length), d, entry.Length)
      ensures entry[k] == -1
      ensures forall e: nat | e < d :: Passed(key[..], entry[..], Start(name, entry.Length), name, e)
    {
      var cap := entry.Length;
      k := Start(name, cap);
      ghost var start := k;
      ghost var free := FreeSlotExists(Used, cap);
      ghost var stop := Distance(start, free, cap);
      d := 0;
      while entry[k] != -1
        invariant d <= stop && k == Probe(start, d, cap)
        invariant forall e: nat | e < d :: Passed(key[..], entry[..], start, name, e)
        decreases stop - d
      {
        assert Passed(key[..], entry[..], start, name, d);
        k := Next(k, cap);
        d := d + 1;
      }
    }

    /** Claims a slot for a name that is absent, as every table finds before it adds. */
    method Add(name: Name, value: nat)
      requires Valid()
      requires name !in Contents && |Contents| < maxEntries
      modifies this, key, entry
      ensures Valid()
      ensures Contents == old(Contents)[name := value]
    {
      ghost var ks, es := key[..], entry[..];
      var k;
      ghost var d;
      k, d := FreeSlot(name);
      key[k] := name;
      entry[k] := value;
      ghost var ks2, es2 := key[..], entry[..];
      assert Filled(ks, es, k, ks2, es2);
      FillHolds(ks, es, Contents, Used, k, ks2, es2, d);
      Contents := Contents[name := value];
      Used := Used + {k};
    }
  }
}
