/**
  The slab backend of the runtime heap as one object (runtime/wok_rc.c:541-642, 678-1121): counted
  cells and the arena share nothing but malloc. Every method is proved to take the steps of
  CountedHeap and ArenaStack; where the source aborts, it returns without a cell and changes nothing.
*/
module RcHeap {
  import opened Cells
  import C = CountedHeap
  import S = ArenaStack

  /** Counts are 32 bits wide. */
  const COUNTS: nat := 0x1_0000_0000

  datatype Result<T> = Aborted | Done(value: T)

  /** The two regions never own the same malloc block. */
  ghost predicate RegionsApart(r: C.Region, t: C.Track, a: S.Arena)
  {
    && (forall x | x in a.slabs :: x < r.blocks && x !in r.slabs)
    && (forall x | x in a.free :: x < r.blocks && x !in r.slabs)
    && (forall p | p in t.live && Class(t.live[p]) >= CLASSES :: p.At? && p.block !in a.slabs && p.block !in a.free)
  }

  /** Blocks the counted region gains are new ones. */
  lemma ApartAfterAlloc(r: C.Region, t: C.Track, a: S.Arena, s: Shape)
    requires C.Inv(r, t) && RegionsApart(r, t, a) && C.Linked(r, Class(s))
    ensures RegionsApart(C.Alloc(r, s).r, C.AllocTrack(r, t, s), a)
    ensures C.Alloc(r, s).r.blocks >= r.blocks
  {
    C.AllocGives(r, t, s);
    AllocBlocks(r, s);
    hide C.Inv, C.Alloc, C.AllocTrack, C.Linked;
  }

  lemma AllocBlocks(r: C.Region, s: Shape)
    requires C.Linked(r, Class(s))
    ensures var b := C.Alloc(r, s);
            && (b.r.slabs == r.slabs || b.r.slabs == [r.blocks] + r.slabs) && b.r.blocks >= r.blocks
            && (b.r.slabs != r.slabs ==> b.r.blocks > r.blocks)
            && (Class(s) >= CLASSES ==> b.p == At(r.blocks, 0) && b.r.slabs == r.slabs && b.r.blocks > r.blocks)
  {
    hide Class, CellBytes, C.Stamp;
  }

  lemma MoreBlocks(r: C.Region, t: C.Track, n: nat)
    requires C.Inv(r, t) && r.blocks <= n
    ensures C.Inv(r.(blocks := n), t)
  {
    var r' := r.(blocks := n);
    forall p | p in t.live
      ensures C.Holds(r', t.cells, p, t.live[p]) && C.Marked(r'.mem, p, t.live[p])
    {
      assert C.Holds(r, t.cells, p, t.live[p]);
    }
    C.BigLists(r, r', t);
    C.GeometrySame(r, r', t.cells);
    hide C.Geometry, C.Lists, C.Counts, C.Holds, C.Marked;
  }

  /** Cells of different regions share no byte, so closing an arena scope touches no counted cell. */
  lemma CountedApartFromArena(r: C.Region, t: C.Track, a: S.Arena, scopes: seq<S.Scope>, p: Ptr, i: nat, c: S.Cell)
    requires C.Inv(r, t) && S.Inv(a, scopes) && RegionsApart(r, t, a)
    requires p in t.live && i < |scopes| && c in scopes[i].cells
    ensures p.At? && c.p.At? && p.block != c.p.block
  {
    S.AllBelow(a, scopes, i, c);
    assert C.Live(r, t) && C.Geometry(r, t.cells);
    assert C.Holds(r, t.cells, p, t.live[p]);
    if Class(t.live[p]) < CLASSES {
      assert C.Placed(r, p, t.cells[p]);
    }
    hide C.Inv, S.Inv;
  }

  /** Nor does a cell on a free list, so reuse never hands out arena memory. */
  lemma FreeApartFromArena(r: C.Region, t: C.Track, a: S.Arena, scopes: seq<S.Scope>, k: nat, p: Ptr, i: nat, c: S.Cell)
    requires C.Inv(r, t) && S.Inv(a, scopes) && RegionsApart(r, t, a)
    requires k < CLASSES && p in t.chains[k] && i < |scopes| && c in scopes[i].cells
    ensures p.At? && c.p.At? && p.block != c.p.block
  {
    S.AllBelow(a, scopes, i, c);
    assert C.Free(r, t, k) && C.Placed(r, p, t.cells[p]);
    hide S.Inv;
  }

  /** Nor does the slab the next counted cell is bumped from. */
  lemma TailApartFromArena(r: C.Region, t: C.Track, a: S.Arena, scopes: seq<S.Scope>, i: nat, c: S.Cell)
    requires C.Inv(r, t) && S.Inv(a, scopes) && RegionsApart(r, t, a)
    requires r.bump.At? && i < |scopes| && c in scopes[i].cells
    ensures c.p.At? && r.bump.block != c.p.block
  {
    S.AllBelow(a, scopes, i, c);
    assert r.bump.block in r.slabs;
    hide S.Inv;
  }

  lemma AllocIsTake(r: C.Region, s: Shape)
    requires C.Linked(r, Class(s))
    ensures var t, b := C.Take(r, Class(s), CellBytes(s)), C.Alloc(r, s);
            && b.p == t.p && b.r == t.r.(mem := C.Stamp(t.r.mem, t.p, s)) && t.r.mem == r.mem
            && |b.r.slabs| - |t.r.slabs| == 0
  {
    hide Class, CellBytes, C.Stamp;
  }

  lemma LiveHeader(r: C.Region, t: C.Track, p: Ptr)
    requires C.Inv(r, t) && p in t.live
    ensures C.Sized(t) && |r.free| == CLASSES && Proper(t.live[p]) && p.At? && p in r.mem && r.mem[p].Header?
    ensures r.mem[p].tag == TagOf(t.live[p]) && r.mem[p].arity == ArityByte(t.live[p])
  {
    assert C.Holds(r, t.cells, p, t.live[p]) && C.Marked(r.mem, p, t.live[p]);
  }

  lemma RestampApart(r: C.Region, t: C.Track, a: S.Arena, p: Ptr, s: Shape, w: Word)
    requires RegionsApart(r, t, a) && p in t.live && C.Restamps(t.live[p], s)
    ensures RegionsApart(r.(mem := r.mem[p := w]), C.RestampTrack(t, p, s), a)
    ensures |t.live[p := s]| == |t.live|
  {
    assert t.live[p := s].Keys == t.live.Keys;
  }

  lemma StoreApart(r: C.Region, t: C.Track, a: S.Arena, mem: map<Ptr, Word>)
    requires RegionsApart(r, t, a)
    ensures RegionsApart(r.(mem := mem), t, a)
  {
  }

  lemma FreeApart(r: C.Region, t: C.Track, a: S.Arena, p: Ptr)
    requires C.Inv(r, t) && RegionsApart(r, t, a) && p in t.live
    ensures p.At? && p in r.mem && r.mem[p].Header?
    ensures RegionsApart(C.Release(r, p, Class(t.live[p])), C.FreeTrack(t, p), a)
    ensures var b := C.Release(r, p, Class(t.live[p])); b.slabs == r.slabs && b.blocks == r.blocks
  {
    LiveHeader(r, t, p);
    hide Class;
  }

  lemma LiveGrows(live: map<Ptr, Shape>, p: Ptr, s: Shape)
    requires p !in live
    ensures |live[p := s]| == |live| + 1
  {
    assert live[p := s].Keys == live.Keys + {p};
  }

  lemma WithoutSize(live: map<Ptr, Shape>, p: Ptr)
    requires p in live
    ensures |C.Without(live, p)| == |live| - 1
  {
    assert live.Keys == C.Without(live, p).Keys + {p};
  }

  lemma OpenApart(r: C.Region, t: C.Track, a: S.Arena)
    requires RegionsApart(r, t, a)
    ensures RegionsApart(r, t, S.Open(a))
  {
  }

  lemma BlockIsNew(r: C.Region, t: C.Track, a: S.Arena)
    requires RegionsApart(r, t, a)
    ensures r.blocks !in a.slabs && r.blocks !in a.free
  {
  }

  lemma ScopesOpen(a: S.Arena, scopes: seq<S.Scope>)
    requires S.Inv(a, scopes)
    ensures |scopes| == |a.frames|
  {
  }

  lemma ArenaAllocApart(r: C.Region, t: C.Track, a: S.Arena, sz: nat)
    requires C.Inv(r, t) && RegionsApart(r, t, a)
    ensures var b := S.Alloc(a, sz, r.blocks);
            var n := r.blocks + b.nslabs - a.nslabs;
            n >= r.blocks && RegionsApart(r.(blocks := n), t, b)
  {
    var b := S.Alloc(a, sz, r.blocks);
    assert forall x | x in r.slabs :: x < r.blocks by {
      assert C.Frontier(r);
    }
    assert forall p | p in t.live && Class(t.live[p]) >= CLASSES :: p.At? && p.block < r.blocks by {
      assert forall p | p in t.live :: C.Holds(r, t.cells, p, t.live[p]);
    }
    if a.free != [] {
      assert a.free[0] in a.free;
      assert forall x | x in a.free[1..] :: x in a.free;
    }
    hide Class;
  }

  lemma ApartShrinks(r: C.Region, t: C.Track, a: S.Arena, b: S.Arena)
    requires RegionsApart(r, t, a)
    requires forall x | x in b.slabs :: x in a.slabs
    requires forall x | x in b.free :: x in a.slabs || x in a.free
    ensures RegionsApart(r, t, b)
  {
    hide Class;
  }

  lemma CloseApart(r: C.Region, t: C.Track, a: S.Arena)
    requires RegionsApart(r, t, a) && a.frames != []
    ensures RegionsApart(r, t, S.Close(a))
  {
    var stop := a.frames[|a.frames| - 1].slab;
    S.RecycledFrom(a.slabs, stop, a.free);
    assert S.Close(a).slabs == S.Unwound(a.slabs, stop) && S.Close(a).free == S.Recycled(a.slabs, stop, a.free);
    hide RegionsApart, S.Close, S.Unwound, S.Recycled;
    ApartShrinks(r, t, a, S.Close(a));
  }

  /** Everything the object keeps true, as a fact about values. */
  ghost predicate Whole(r: C.Region, t: C.Track, a: S.Arena, scopes: seq<S.Scope>)
  {
    C.Inv(r, t) && S.Inv(a, scopes) && RegionsApart(r, t, a)
  }

  lemma WholeAlloc(r: C.Region, t: C.Track, a: S.Arena, scopes: seq<S.Scope>, s: Shape)
    requires Whole(r, t, a, scopes) && Proper(s)
    ensures C.Linked(r, Class(s)) && C.Inv(r, t)
    ensures var b := C.Alloc(r, s);
            && Whole(b.r, C.AllocTrack(r, t, s), a, scopes) && b.p !in t.live
            && C.AllocTrack(r, t, s).live == t.live[b.p := s]
  {
    hide C.Inv, S.Inv, RegionsApart, C.Alloc, C.AllocTrack, C.Linked, Class;
    C.AllocKeeps(r, t, s);
    ApartAfterAlloc(r, t, a, s);
  }

  lemma WholeOthers(r: C.Region, t: C.Track, a: S.Arena, scopes: seq<S.Scope>, s: Shape)
    requires Whole(r, t, a, scopes) && Proper(s) && C.Linked(r, Class(s))
    ensures var b := C.Alloc(r, s);
            && C.Marked(b.r.mem, b.p, s) && b.r.mem[b.p].rc == 1
            && forall q | q in t.live :: CellKept(r.mem, b.r.mem, q, CellBytes(t.live[q]))
  {
    hide C.Inv, S.Inv, RegionsApart, C.Alloc, C.Linked, C.Marked;
    C.AllocOthers(r, t, s);
  }

  /** A write to a word of a held cell leaves every other held cell as it is. */
  lemma WholeWrite(r: C.Region, t: C.Track, a: S.Arena, scopes: seq<S.Scope>, p: Ptr, k: nat, w: Word)
    requires Whole(r, t, a, scopes) && p in t.live && 8 * k < CellBytes(t.live[p])
    ensures p.At?
    ensures forall q | q in t.live && q != p :: CellKept(r.mem, r.mem[Granule(p, k) := w], q, CellBytes(t.live[q]))
  {
    hide C.Geometry, C.Frontier, C.Lists, C.Counts, C.Filled, C.Live, S.Inv, RegionsApart, CellKept;
    LiveHeader(r, t, p);
    forall q | q in t.live && q != p
      ensures CellKept(r.mem, r.mem[Granule(p, k) := w], q, CellBytes(t.live[q]))
    {
      C.WriteKeeps(r, t, p, k, w, q);
    }
  }

  lemma WholeFreeOthers(r: C.Region, t: C.Track, a: S.Arena, scopes: seq<S.Scope>, p: Ptr)
    requires Whole(r, t, a, scopes) && p in t.live && |r.free| == CLASSES
    ensures forall q | q in t.live && q != p ::
              CellKept(r.mem, C.Release(r, p, Class(t.live[p])).mem, q, CellBytes(t.live[q]))
  {
    hide C.Inv, S.Inv, RegionsApart, CellKept, C.Release;
    forall q | q in t.live && q != p
      ensures CellKept(r.mem, C.Release(r, p, Class(t.live[p])).mem, q, CellBytes(t.live[q]))
    {
      C.FreeOthers(r, t, p, q);
    }
  }

  lemma LiveWord(r: C.Region, t: C.Track, a: S.Arena, scopes: seq<S.Scope>, p: Ptr)
    requires Whole(r, t, a, scopes) && p in t.live
    ensures p in r.mem && r.mem[p].Header?
  {
    hide C.Inv, S.Inv, RegionsApart;
    LiveHeader(r, t, p);
  }

  lemma LiveRoute(r: C.Region, t: C.Track, a: S.Arena, scopes: seq<S.Scope>, p: Ptr)
    requires Whole(r, t, a, scopes) && p in t.live
    ensures p.At? && p in r.mem && r.mem[p].Header?
    ensures ReadsLength(r.mem[p].tag) ==> Plus(p, 8) in r.mem && r.mem[Plus(p, 8)].Length?
    ensures C.RouteOf(r.mem, p) == Class(t.live[p])
  {
    hide C.Geometry, C.Frontier, C.Lists, C.Counts, C.Filled, S.Inv, RegionsApart, Class;
    C.RouteIsClass(r, t, p);
  }

  lemma WholeFree(r: C.Region, t: C.Track, a: S.Arena, scopes: seq<S.Scope>, p: Ptr)
    requires Whole(r, t, a, scopes) && p in t.live
    ensures C.Sized(t) && |r.free| == CLASSES && p in r.mem
    ensures var t' := C.FreeTrack(t, p);
            Whole(C.Release(r, p, Class(t.live[p])), t', a, scopes) && t'.live == C.Without(t.live, p)
  {
    hide C.Inv, S.Inv, RegionsApart, C.Release, Class;
    LiveHeader(r, t, p);
    C.FreeKeeps(r, t, p);
    FreeApart(r, t, a, p);
  }

  lemma WholeArenaAlloc(r: C.Region, t: C.Track, a: S.Arena, scopes: seq<S.Scope>, sz: nat)
    requires Whole(r, t, a, scopes) && a.frames != [] && sz <= SLAB - GRANULE
    ensures scopes != []
    ensures var b := S.Alloc(a, sz, r.blocks);
            var n := r.blocks + b.nslabs - a.nslabs;
            n >= r.blocks && Whole(r.(blocks := n), t, b, S.Held(scopes, S.Cell(S.Room(a, sz, r.blocks).ptr, sz)))
  {
    hide C.Inv, S.Inv, RegionsApart, S.Alloc, S.Held, S.Room;
    ScopesOpen(a, scopes);
    BlockIsNew(r, t, a);
    S.AllocKeeps(a, scopes, sz, r.blocks);
    ArenaAllocApart(r, t, a, sz);
    MoreBlocks(r, t, r.blocks + S.Alloc(a, sz, r.blocks).nslabs - a.nslabs);
  }

  lemma WholeClose(r: C.Region, t: C.Track, a: S.Arena, scopes: seq<S.Scope>)
    requires Whole(r, t, a, scopes) && a.frames != []
    ensures |scopes| == |a.frames| && Whole(r, t, S.Close(a), scopes[..|scopes| - 1])
  {
    hide C.Inv, S.Inv, RegionsApart, S.Close;
    ScopesOpen(a, scopes);
    S.CloseKeeps(a, scopes);
    CloseApart(r, t, a);
  }

  class WokHeap {
    // what malloc has handed out, and the bytes of it that were written
    var blocks: nat
    var mem: map<Ptr, Word>
    // counted region
    var nslabs: nat
    var slabs: seq<nat>
    var bump: Ptr
    const freelist: array<Ptr>
    var allocs: nat
    var frees: nat
    var live: int
    var peak: int
    // arena region
    var arenaSlabs: seq<nat>
    var arenaPtr: Ptr
    var arenaFree: seq<nat>
    var arenaNslabs: nat
    var arenaBytes: nat
    var arenaPeak: nat
    var arenaDepth: nat
    const arenaStack: array<S.Frame>
    // what the clients hold
    ghost var track: C.Track
    ghost var scopes: seq<S.Scope>

    ghost function R(): C.Region
      reads `blocks, `mem, `slabs, `bump, freelist
    {
      C.Region(blocks, mem, slabs, bump, freelist[..])
    }

    ghost function A(): S.Arena
      reads `arenaSlabs, `arenaPtr, `arenaFree, `arenaNslabs, `arenaBytes, `arenaPeak, `arenaDepth, arenaStack
      requires arenaDepth <= arenaStack.Length
    {
      S.Arena(arenaSlabs, arenaPtr, arenaFree, arenaNslabs, arenaBytes, arenaPeak, arenaStack[..arenaDepth])
    }

    /** The counters agree with what they count. */
    ghost predicate Stats()
      reads `nslabs, `slabs, `live, `allocs, `frees, `peak, `track
    {
      nslabs == |slabs| && live == |track.live| == allocs - frees && live <= peak
    }

    ghost predicate Valid()
      reads this, freelist, arenaStack
    {
      && freelist.Length == CLASSES && arenaStack.Length == S.MAX_DEPTH && arenaDepth <= S.MAX_DEPTH
      && Whole(R(), track, A(), scopes) && Stats()
    }

    /** Every word of every cell held before, but for `p`, is what it was. */
    twostate predicate OthersKept(p: Ptr)
      reads this
    {
      forall q | q in old(track.live) && q != p :: CellKept(old(mem), mem, q, CellBytes(old(track.live)[q]))
    }

    /** `p` is one cell more, of shape `s`, at count 1 with its words written; nothing else a client holds moved. */
    twostate predicate Allocated(p: Ptr, s: Shape)
      reads this, freelist, arenaStack
    {
      && Valid() && p !in old(track.live) && track.live == old(track.live)[p := s]
      && C.Marked(mem, p, s) && mem[p].rc == 1 && OthersKept(p) && Contents(s) <= CellBytes(s)
      && allocs == old(allocs) + 1 && frees == old(frees) && peak == (if live > old(peak) then live else old(peak))
      && scopes == old(scopes) && arenaDepth == old(arenaDepth) <= arenaStack.Length && A() == old(A())
    }

    constructor ()
      ensures Valid() && fresh(freelist) && fresh(arenaStack) && track == C.NOTHING && scopes == []
    {
      blocks, mem, nslabs, slabs, bump := 0, map[], 0, [], Null;
      freelist := new Ptr[CLASSES](_ => Null);
      allocs, frees, live, peak := 0, 0, 0, 0;
      arenaSlabs, arenaPtr, arenaFree, arenaNslabs := [], Null, [], 0;
      arenaBytes, arenaPeak, arenaDepth := 0, 0, 0;
      arenaStack := new S.Frame[S.MAX_DEPTH](_ => S.Frame(S.None, Null, 0));
      track, scopes := C.NOTHING, [];
      new;
      C.EmptyHeap();
      S.EmptyArena();
      assert freelist[..] == C.EMPTY.free;
      hide C.Inv, S.Inv;
    }

    /** The free list, else the bump pointer, else malloc: the body the seven allocators share. */
    method Take(cls: nat, sz: nat) returns (p: Ptr)
      requires freelist.Length == CLASSES && C.Linked(R(), cls)
      modifies this`blocks, this`slabs, this`nslabs, this`bump, freelist
      ensures C.Take(old(R()), cls, sz) == C.Taken(R(), p)
      ensures nslabs - |slabs| == old(nslabs - |slabs|)
    {
      if cls < CLASSES {
        p := freelist[cls];
        if p.At? {
          freelist[cls] := mem[p].next;
        } else {
          if bump.Null? || bump.off + sz > SLAB {
            slabs := [blocks] + slabs;
            bump := At(blocks, GRANULE);
            blocks, nslabs := blocks + 1, nslabs + 1;
          }
          p := bump;
          bump := At(bump.block, bump.off + sz);
        }
      } else {
        p := At(blocks, 0);
        blocks := blocks + 1;
      }
    }

    /** The header, and the words behind it one by one. */
    method Stamp(p: Ptr, s: Shape)
      requires p.At?
      modifies this`mem
      ensures mem == C.Stamp(old(mem), p, s)
    {
      mem := mem[p := Header(1, TagOf(s), ArityByte(s))];
      var ws, i := Words(s), 0;
      while i < |ws|
        invariant 0 <= i <= |ws| && Put(mem, Granule(p, i + 1), ws[i..]) == C.Stamp(old(mem), p, s)
      {
        assert ws[i..][1..] == ws[i + 1..];
        mem := mem[Granule(p, i + 1) := ws[i]];
        i := i + 1;
      }
    }

    /** A cell taken and stamped. */
    method Draw(s: Shape) returns (p: Ptr)
      requires freelist.Length == CLASSES && C.Linked(R(), Class(s))
      modifies this`blocks, this`slabs, this`nslabs, this`bump, this`mem, freelist
      ensures C.Alloc(old(R()), s) == C.Taken(R(), p)
      ensures nslabs - |slabs| == old(nslabs - |slabs|)
    {
      hide C.Take, C.Stamp, C.Linked, C.Alloc, Class, CellBytes;
      ghost var r := R();
      AllocIsTake(r, s);
      p := Take(Class(s), CellBytes(s));
      ghost var taken := R();
      Stamp(p, s);
      assert R() == taken.(mem := mem);
    }

    method Charge()
      requires live <= peak
      modifies this`allocs, this`live, this`peak
      ensures allocs == old(allocs) + 1 && live == old(live) + 1 && live <= peak
      ensures peak == if live > old(peak) then live else old(peak)
    {
      allocs, live := allocs + 1, live + 1;
      peak := if live > peak then live else peak;
    }

    /** Header, words and counters; the client now holds the cell. */
    method AllocShape(s: Shape) returns (p: Ptr)
      requires Valid() && Proper(s)
      modifies `blocks, `slabs, `nslabs, `bump, `mem, `allocs, `live, `peak, `track, freelist
      ensures Allocated(p, s)
    {
      hide Whole, C.Inv, C.Alloc, C.AllocTrack, C.Linked, C.Marked, CellKept, Class, CellBytes, A;
      ghost var r, t, a := R(), track, A();
      HasRoom(s);
      WholeAlloc(r, t, a, scopes, s);
      WholeOthers(r, t, a, scopes, s);
      LiveGrows(t.live, C.Alloc(r, s).p, s);
      p := Draw(s);
      Charge();
      track := C.AllocTrack(r, t, s);
    }

    method WokAlloc(tag: nat, arity: nat) returns (p: Ptr)
      requires Valid() && Proper(Con(tag, arity))
      modifies `blocks, `slabs, `nslabs, `bump, `mem, `allocs, `live, `peak, `track, freelist
      ensures Allocated(p, Con(tag, arity))
    {
      p := AllocShape(Con(tag, arity));
    }

    method WokArrayAlloc(len: nat, elemkind: nat) returns (r: Result<Ptr>)
      requires Valid() && elemkind < 256
      modifies `blocks, `slabs, `nslabs, `bump, `mem, `allocs, `live, `peak, `track, freelist
      ensures r.Aborted? <==> len > (SIZE_MAX - 16) / 8
      ensures r.Done? ==> Allocated(r.value, Array(len, elemkind))
      ensures r.Aborted? ==> unchanged(this) && unchanged(freelist)
    {
      if len > (SIZE_MAX - 16) / 8 {
        return Aborted;
      }
      var p := AllocShape(Array(len, elemkind));
      r := Done(p);
    }

    method WokStringAlloc(byteLen: nat) returns (r: Result<Ptr>)
      requires Valid()
      modifies `blocks, `slabs, `nslabs, `bump, `mem, `allocs, `live, `peak, `track, freelist
      ensures r.Aborted? <==> byteLen > SIZE_MAX - 16 - 7
      ensures r.Done? ==> Allocated(r.value, Str(byteLen))
      ensures r.Aborted? ==> unchanged(this) && unchanged(freelist)
    {
      if byteLen > SIZE_MAX - 16 - 7 {
        return Aborted;
      }
      var p := AllocShape(Str(byteLen));
      r := Done(p);
    }

    method WokBytesAlloc(byteLen: nat) returns (r: Result<Ptr>)
      requires Valid()
      modifies `blocks, `slabs, `nslabs, `bump, `mem, `allocs, `live, `peak, `track, freelist
      ensures r.Aborted? <==> byteLen > SIZE_MAX - 16 - 7
      ensures r.Done? ==> Allocated(r.value, Bytes(byteLen))
      ensures r.Aborted? ==> unchanged(this) && unchanged(freelist)
    {
      if byteLen > SIZE_MAX - 16 - 7 {
        return Aborted;
      }
      var p := AllocShape(Bytes(byteLen));
      r := Done(p);
    }

    method WokStringViewAlloc(parent: Ptr, start: nat, len: nat) returns (p: Ptr)
      requires Valid()
      modifies `blocks, `slabs, `nslabs, `bump, `mem, `allocs, `live, `peak, `track, freelist
      ensures Allocated(p, View(parent, start, len))
    {
      p := AllocShape(View(parent, start, len));
    }

    method WokForeignBytesAlloc(data: nat, byteLen: nat) returns (p: Ptr)
      requires Valid()
      modifies `blocks, `slabs, `nslabs, `bump, `mem, `allocs, `live, `peak, `track, freelist
      ensures Allocated(p, Foreign(data, byteLen))
    {
      p := AllocShape(Foreign(data, byteLen));
    }

    method WokBorrowViewAlloc(data: nat, byteLen: nat) returns (p: Ptr)
      requires Valid()
      modifies `blocks, `slabs, `nslabs, `bump, `mem, `allocs, `live, `peak, `track, freelist
      ensures Allocated(p, Borrow(data, byteLen))
    {
      p := AllocShape(Borrow(data, byteLen));
    }

    /** The header of a live cell, as the allocator wrote it. */
    ghost function HeaderOf(p: Ptr): (w: Word)
      reads this, freelist, arenaStack
      requires Valid() && p in track.live
      ensures w.Header? && w.tag == TagOf(track.live[p]) && w.arity == ArityByte(track.live[p])
    {
      LiveHeader(R(), track, p);
      mem[p]
    }

    /** The count of a live cell, whatever its shape. */
    method WokRc(p: Ptr) returns (rc: nat)
      requires Valid() && p in track.live
      ensures rc == HeaderOf(p).rc
    {
      hide Whole, Stats;
      ghost var w := HeaderOf(p);
      LiveWord(R(), track, A(), scopes, p);
      rc := mem[p].rc;
    }

    /** A new header over an old one of the same size: reference counts, and reuse in place. */
    method Restamp(p: Ptr, ghost s: Shape, rc: nat, tag: nat, arity: nat)
      requires Valid() && p in track.live && C.Restamps(track.live[p], s) && tag == TagOf(s) && arity == ArityByte(s)
      modifies this`mem, this`track
      ensures Valid() && track.live == old(track.live)[p := s] && HeaderOf(p).rc == rc
      ensures mem == old(mem)[p := Header(rc, tag, arity)] && OthersKept(p)
    {
      hide C.Inv, S.Inv, Class, CellKept;
      C.RestampKeeps(R(), track, p, s, rc);
      RestampApart(R(), track, A(), p, s, Header(rc, tag, arity));
      WholeWrite(R(), track, A(), scopes, p, 0, Header(rc, tag, arity));
      assert Granule(p, 0) == p;
      mem := mem[p := Header(rc, tag, arity)];
      track := C.RestampTrack(track, p, s);
      assert R() == old(R()).(mem := mem);
    }

    /** One count more, in 32 bits; nothing else moves. */
    method WokDup(p: Ptr)
      requires Valid() && p in track.live
      modifies this`mem, this`track
      ensures Valid() && track.live == old(track.live) && OthersKept(p)
      ensures HeaderOf(p).rc == (old(HeaderOf(p)).rc + 1) % COUNTS
      ensures mem == old(mem)[p := HeaderOf(p)]
    {
      hide C.Inv, S.Inv, RegionsApart, CellKept;
      LiveHeader(R(), track, p);
      Restamp(p, track.live[p], (mem[p].rc + 1) % COUNTS, mem[p].tag, mem[p].arity);
    }

    /** One count less; a count of zero aborts. */
    method WokDec(p: Ptr) returns (r: Result<nat>)
      requires Valid() && p in track.live
      modifies this`mem, this`track
      ensures Valid() && track.live == old(track.live) && (r.Aborted? <==> old(HeaderOf(p)).rc == 0)
      ensures r.Done? ==> r.value == old(HeaderOf(p)).rc - 1 && OthersKept(p)
      ensures r.Done? ==> HeaderOf(p).rc == r.value && mem == old(mem)[p := HeaderOf(p)]
      ensures r.Aborted? ==> unchanged(this)
    {
      hide C.Inv, S.Inv, RegionsApart, CellKept;
      LiveHeader(R(), track, p);
      if mem[p].rc == 0 {
        return Aborted;
      }
      var rc := mem[p].rc - 1;
      Restamp(p, track.live[p], rc, mem[p].tag, mem[p].arity);
      r := Done(rc);
    }

    /** Reuse in place: the shell keeps its cell, so nothing is allocated and nothing freed. */
    method WokAllocAt(tag: nat, arity: nat, p: Ptr) returns (ok: bool)
      requires Valid() && Proper(Con(tag, arity)) && p in track.live && track.live[p].Con?
      modifies this`mem, this`track
      ensures Valid() && ok == (old(track.live)[p].arity == arity && old(HeaderOf(p)).rc == 0)
      ensures ok ==> track.live == old(track.live)[p := Con(tag, arity)]
      ensures ok ==> mem == old(mem)[p := Header(1, tag, arity)] && OthersKept(p)
      ensures !ok ==> unchanged(this)
    {
      hide C.Inv, S.Inv, RegionsApart, CellKept;
      LiveHeader(R(), track, p);
      if mem[p].arity != arity || mem[p].rc != 0 {
        return false;
      }
      Restamp(p, Con(tag, arity), 1, tag, arity);
      ok := true;
    }

    /** A client's own store into a cell it holds, behind the words the allocator wrote. */
    method Store(p: Ptr, k: nat, w: Word)
      requires Valid() && p in track.live && p.At? && C.Storable(track.live[p], k)
      modifies this`mem
      ensures Valid() && mem == old(mem)[Granule(p, k) := w] && OthersKept(p)
    {
      hide C.Inv, S.Inv, CellKept;
      C.StoreKeeps(R(), track, p, k, w);
      StoreApart(R(), track, A(), mem[Granule(p, k) := w]);
      WholeWrite(R(), track, A(), scopes, p, k, w);
      mem := mem[Granule(p, k) := w];
      assert R() == old(R()).(mem := mem);
    }

    /** The size class the cell's own words name. */
    method ClassOf(p: Ptr) returns (cls: nat)
      requires Valid() && p in track.live
      ensures cls == Class(track.live[p])
    {
      hide Whole, Class, Stats;
      LiveRoute(R(), track, A(), scopes, p);
      var len := if ReadsLength(mem[p].tag) then mem[Plus(p, 8)].len else 0;
      cls := Route(mem[p], len);
    }

    method Relink(p: Ptr, cls: nat)
      requires freelist.Length == CLASSES
      modifies `mem, freelist
      ensures R() == C.Release(old(R()), p, cls)
    {
      if cls < CLASSES {
        mem := mem[p := Link(freelist[cls])];
        freelist[cls] := p;
      }
    }

    /** Back to the list of the class the cell itself names. */
    method Reclaim(p: Ptr)
      requires Valid() && p in track.live
      modifies `mem, `frees, `live, `track, freelist
      ensures Valid() && track.live == C.Without(old(track.live), p) && frees == old(frees) + 1 && OthersKept(p)
    {
      hide Whole, Class, CellBytes, C.Release, C.FreeTrack, C.Without, C.Sized, A, HeaderOf, CellKept;
      ghost var t := track;
      WholeFree(R(), t, A(), scopes, p);
      WholeFreeOthers(R(), t, A(), scopes, p);
      WithoutSize(t.live, p);
      var cls := ClassOf(p);
      Relink(p, cls);
      frees, live := frees + 1, live - 1;
      track := C.FreeTrack(t, p);
    }

    /** A premature free aborts. */
    method WokFree(p: Ptr) returns (ok: bool)
      requires Valid() && p in track.live
      modifies `mem, `frees, `live, `track, freelist
      ensures Valid() && ok == (old(HeaderOf(p)).rc == 0)
      ensures ok ==> track.live == C.Without(old(track.live), p) && frees == old(frees) + 1 && OthersKept(p)
      ensures !ok ==> unchanged(this) && unchanged(freelist)
    {
      hide Valid, HeaderOf, CellKept;
      var rc := WokRc(p);
      ok := rc == 0;
      if ok {
        Reclaim(p);
      }
    }

    // ---- arena

    method WokArenaOpen() returns (r: Result<nat>)
      requires Valid()
      modifies this`arenaDepth, this`scopes, arenaStack
      ensures Valid() && (r.Aborted? <==> old(arenaDepth) == S.MAX_DEPTH)
      ensures r.Done? ==> r.value == old(arenaDepth) && A() == S.Open(old(A()))
      ensures r.Done? ==> scopes == S.Opened(old(A()), old(scopes))
      ensures r.Aborted? ==> A() == old(A()) && scopes == old(scopes)
    {
      hide C.Inv, S.Inv, RegionsApart;
      if arenaDepth >= S.MAX_DEPTH {
        return Aborted;
      }
      ghost var a := A();
      S.OpenKeeps(a, scopes);
      OpenApart(R(), track, a);
      var handle := arenaDepth;
      arenaStack[handle] := S.Frame(S.Head(arenaSlabs), arenaPtr, arenaBytes);
      arenaDepth := arenaDepth + 1;
      scopes := S.Opened(a, scopes);
      assert A() == S.Open(a);
      r := Done(handle);
    }

    /** A recycled slab if there is one, else a new block. */
    method MakeRoom(sz: nat)
      requires arenaDepth <= arenaStack.Length
      modifies this`blocks, this`arenaSlabs, this`arenaPtr, this`arenaFree, this`arenaNslabs
      ensures A() == S.Room(old(A()), sz, old(blocks)) && blocks == old(blocks) + arenaNslabs - old(arenaNslabs)
    {
      if arenaPtr.Null? || arenaPtr.off + sz > SLAB {
        if arenaFree != [] {
          arenaSlabs, arenaPtr, arenaFree := [arenaFree[0]] + arenaSlabs, At(arenaFree[0], GRANULE), arenaFree[1..];
        } else {
          arenaSlabs, arenaPtr := [blocks] + arenaSlabs, At(blocks, GRANULE);
          blocks, arenaNslabs := blocks + 1, arenaNslabs + 1;
        }
      }
    }

    method PushCell(sz: nat) returns (p: Ptr)
      requires arenaDepth <= arenaStack.Length && arenaPtr.At?
      modifies this`arenaPtr, this`arenaBytes, this`arenaPeak
      ensures p == old(arenaPtr) && A() == S.Pushed(old(A()), sz)
    {
      p := arenaPtr;
      arenaPtr := At(p.block, p.off + sz);
      arenaBytes := arenaBytes + sz;
      arenaPeak := if arenaBytes > arenaPeak then arenaBytes else arenaPeak;
    }

    method Unwind(stop: S.Option)
      modifies this`arenaSlabs, this`arenaFree
      ensures arenaSlabs == S.Unwound(old(arenaSlabs), stop)
      ensures arenaFree == S.Recycled(old(arenaSlabs), stop, old(arenaFree))
    {
      while arenaSlabs != [] && S.Head(arenaSlabs) != stop
        invariant S.Unwound(old(arenaSlabs), stop) == S.Unwound(arenaSlabs, stop)
        invariant S.Recycled(old(arenaSlabs), stop, old(arenaFree)) == S.Recycled(arenaSlabs, stop, arenaFree)
        decreases |arenaSlabs|
      {
        arenaSlabs, arenaFree := arenaSlabs[1..], [arenaSlabs[0]] + arenaFree;
      }
    }

    method WokArenaAlloc(tag: nat, arity: nat) returns (r: Result<Ptr>)
      requires Valid() && Proper(Con(tag, arity))
      modifies this`blocks, this`arenaSlabs, this`arenaPtr, this`arenaFree, this`arenaNslabs, this`arenaBytes,
               this`arenaPeak, this`scopes
      ensures Valid() && (r.Aborted? <==> old(arenaDepth) == 0) && track == old(track) && arenaDepth == old(arenaDepth)
      ensures r.Done? ==> old(scopes) != [] && scopes == S.Held(old(scopes), S.Cell(r.value, 8 + 8 * arity))
      ensures r.Aborted? ==> scopes == old(scopes) && A() == old(A())
    {
      hide Whole, S.Room, S.Held, Stats;
      if arenaDepth == 0 {
        return Aborted;
      }
      var sz := ConBytes(arity);
      ghost var a, was := A(), R();
      assert a.frames != [];
      WholeArenaAlloc(was, track, a, scopes, sz);
      MakeRoom(sz);
      var p := PushCell(sz);
      scopes := S.Held(scopes, S.Cell(p, sz));
      assert A() == S.Alloc(a, sz, was.blocks);
      assert R() == was.(blocks := blocks);
      r := Done(p);
    }

    /** Grown slabs go to the arena's own free list; the frontier goes back to the checkpoint. */
    method WokArenaClose(handle: nat) returns (ok: bool)
      requires Valid()
      modifies this`arenaSlabs, this`arenaFree, this`arenaPtr, this`arenaBytes, this`arenaDepth, this`scopes
      ensures Valid() && ok == (0 < old(arenaDepth) == handle + 1) && track == old(track)
      ensures ok ==> scopes == old(scopes)[..handle] && old(A()).frames != [] && A() == S.Close(old(A()))
      ensures !ok ==> A() == old(A()) && scopes == old(scopes)
    {
      hide Whole, S.Unwound, S.Recycled, Stats;
      if arenaDepth == 0 || handle != arenaDepth - 1 {
        return false;
      }
      ghost var a := A();
      WholeClose(R(), track, a, scopes);
      var f := arenaStack[handle];
      assert f == a.frames[|a.frames| - 1];
      Unwind(f.slab);
      arenaPtr, arenaBytes, arenaDepth := f.ptr, f.bytes, arenaDepth - 1;
      scopes := scopes[..handle];
      assert arenaStack[..handle] == a.frames[..handle];
      assert A() == S.Close(a);
      ok := true;
    }
  }
}
