/**
  The per-activation arena (runtime/wok_rc.c:1030-1121) on values: a bump region of its own,
  a stack of saved frontiers, and a list of recycled slabs. `Scope`s are the client's view: the
  slab list as it stood at each open, and the cells allocated since.
*/
module ArenaStack {
  import opened Cells

  const MAX_DEPTH: nat := 32

  datatype Frame = Frame(slab: Option, ptr: Ptr, bytes: nat)

  datatype Option = None | Some(id: nat)

  /** `slabs` and `free` are the two linked slab lists, newest first. */
  datatype Arena = Arena(slabs: seq<nat>, ptr: Ptr, free: seq<nat>, nslabs: nat, bytes: nat, peak: nat,
                         frames: seq<Frame>)

  const EMPTY := Arena([], Null, [], 0, 0, 0, [])

  function Head(list: seq<nat>): Option
  {
    if list == [] then None else Some(list[0])
  }

  function Open(a: Arena): Arena
  {
    a.(frames := a.frames + [Frame(Head(a.slabs), a.ptr, a.bytes)])
  }

  /** One slab in front: a recycled one if there is any, else the block `block` from malloc. */
  function Grow(a: Arena, block: nat): Arena
  {
    var id := if a.free != [] then a.free[0] else block;
    a.(slabs := [id] + a.slabs, ptr := At(id, GRANULE), free := if a.free != [] then a.free[1..] else [],
       nslabs := a.nslabs + if a.free != [] then 0 else 1)
  }

  predicate Fits(a: Arena, sz: nat)
  {
    a.ptr.At? && a.ptr.off + sz <= SLAB
  }

  function Room(a: Arena, sz: nat, block: nat): (b: Arena)
    ensures b.ptr.At?
  {
    if Fits(a, sz) then a else Grow(a, block)
  }

  function Max(a: nat, b: nat): nat
  {
    if a < b then b else a
  }

  /** The cell is at the old frontier of the room made. */
  function Alloc(a: Arena, sz: nat, block: nat): Arena
  {
    var b := Room(a, sz, block);
    b.(ptr := At(b.ptr.block, b.ptr.off + sz), bytes := b.bytes + sz, peak := Max(b.peak, b.bytes + sz))
  }

  /** The slab list from `stop` on. */
  function Unwound(list: seq<nat>, stop: Option): (r: seq<nat>)
    ensures Suffix(r, list)
  {
    if list == [] || Head(list) == stop then list else Unwound(list[1..], stop)
  }

  /** The slabs before `stop`, as pushing them one by one leaves them on the free list. */
  function Recycled(list: seq<nat>, stop: Option, free: seq<nat>): (r: seq<nat>)
    ensures |r| == |free| + |list| - |Unwound(list, stop)|
  {
    if list == [] || Head(list) == stop then free else Recycled(list[1..], stop, [list[0]] + free)
  }

  function Close(a: Arena): Arena
    requires a.frames != []
  {
    var f := a.frames[|a.frames| - 1];
    a.(slabs := Unwound(a.slabs, f.slab), free := Recycled(a.slabs, f.slab, a.free), ptr := f.ptr, bytes := f.bytes,
       frames := a.frames[..|a.frames| - 1])
  }

  // ---------------------------------------------------------------- the client's view

  datatype Cell = Cell(p: Ptr, size: nat)

  /** What a scope must find again: the list and frontier at its open, and the cells it holds. */
  datatype Scope = Scope(slabs: seq<nat>, ptr: Ptr, bytes: nat, cells: seq<Cell>)

  /** A frontier: the slab in front and how far it is used. */
  ghost predicate Front(slabs: seq<nat>, ptr: Ptr)
  {
    && (slabs == [] <==> ptr == Null)
    && (slabs != [] ==> ptr.At? && ptr.block == slabs[0] && GRANULE <= ptr.off <= SLAB)
  }

  /** A cell below a frontier. */
  ghost predicate Below(c: Cell, slabs: seq<nat>, ptr: Ptr)
  {
    && c.p.At? && c.p.block in slabs && c.p.off + c.size <= SLAB
    && (ptr.At? && c.p.block == ptr.block ==> c.p.off + c.size <= ptr.off)
  }

  ghost predicate Distinct(list: seq<nat>)
  {
    forall i: nat, j: nat | i < j < |list| :: list[i] != list[j]
  }

  predicate Suffix(short: seq<nat>, long: seq<nat>)
  {
    |short| <= |long| && short == long[|long| - |short|..]
  }

  /** `inner` opened after `outer`: its list extends the outer one, and its frontier is no lower. */
  ghost predicate Above(outerSlabs: seq<nat>, outerPtr: Ptr, innerSlabs: seq<nat>, innerPtr: Ptr)
  {
    && Suffix(outerSlabs, innerSlabs)
    && (outerSlabs == innerSlabs && outerPtr.At? && innerPtr.At? ==> outerPtr.off <= innerPtr.off)
  }

  ghost predicate Lies(a: Arena)
  {
    && Front(a.slabs, a.ptr) && Distinct(a.slabs + a.free)
    && |a.slabs| + |a.free| == a.nslabs
  }

  /** Frame `i` and the client's scope `i` agree, and the scope opened inside what is there now. */
  ghost predicate Framed(a: Arena, scopes: seq<Scope>, i: nat)
    requires i < |scopes| && i < |a.frames|
  {
    var s, f := scopes[i], a.frames[i];
    && f == Frame(Head(s.slabs), s.ptr, s.bytes) && Front(s.slabs, s.ptr)
    && Above(s.slabs, s.ptr, a.slabs, a.ptr)
  }

  /** The cells of a scope lie above its own frontier and below the next one's. */
  ghost predicate Kept(a: Arena, scopes: seq<Scope>, i: nat)
    requires i < |scopes|
  {
    forall c | c in scopes[i].cells ::
      if i + 1 < |scopes| then Below(c, scopes[i + 1].slabs, scopes[i + 1].ptr) else Below(c, a.slabs, a.ptr)
  }

  /** Every cell of every open scope, in the order of allocation. */
  function AllCells(scopes: seq<Scope>): seq<Cell>
  {
    if scopes == [] then [] else AllCells(scopes[..|scopes| - 1]) + scopes[|scopes| - 1].cells
  }

  ghost predicate ApartAll(cs: seq<Cell>)
  {
    && (forall i: nat | i < |cs| :: cs[i].p.At?)
    && (forall i: nat, j: nat | i < j < |cs| :: Apart(cs[i].p, cs[i].size, cs[j].p, cs[j].size))
  }

  ghost predicate Nested(scopes: seq<Scope>)
  {
    forall i: nat, j: nat | i < j < |scopes| :: Above(scopes[i].slabs, scopes[i].ptr, scopes[j].slabs, scopes[j].ptr)
  }

  ghost predicate Inv(a: Arena, scopes: seq<Scope>)
  {
    && Lies(a) && |scopes| == |a.frames| && Nested(scopes) && ApartAll(AllCells(scopes))
    && (forall i: nat | i < |scopes| :: Framed(a, scopes, i))
    && (forall i: nat | i < |scopes| :: Kept(a, scopes, i))
  }

  // ---------------------------------------------------------------- the operations keep it

  lemma EmptyArena()
    ensures Inv(EMPTY, [])
  {
  }

  function Opened(a: Arena, scopes: seq<Scope>): seq<Scope>
  {
    scopes + [Scope(a.slabs, a.ptr, a.bytes, [])]
  }

  lemma OpenKeeps(a: Arena, scopes: seq<Scope>)
    requires Inv(a, scopes)
    ensures Inv(Open(a), Opened(a, scopes))
  {
    var b, inner := Open(a), Opened(a, scopes);
    assert inner[..|inner| - 1] == scopes;
    assert AllCells(inner) == AllCells(scopes) + [];
    forall i: nat | i < |inner|
      ensures Framed(b, inner, i) && Kept(b, inner, i)
    {
      if i < |scopes| {
        assert Framed(a, scopes, i) && Kept(a, scopes, i);
      }
    }
    forall i: nat, j: nat | i < j < |inner|
      ensures Above(inner[i].slabs, inner[i].ptr, inner[j].slabs, inner[j].ptr)
    {
      if j == |scopes| {
        assert Framed(a, scopes, i);
      }
    }
  }

  lemma InSuffix(short: seq<nat>, long: seq<nat>, x: nat)
    requires Suffix(short, long) && x in short
    ensures x in long
  {
    var i: nat :| i < |short| && short[i] == x;
    assert long[|long| - |short| + i] == x;
  }

  lemma HeadOutside(short: seq<nat>, long: seq<nat>)
    requires Suffix(short, long) && |short| < |long| && Distinct(long)
    ensures long[0] !in short
  {
    forall i: nat | i < |short|
      ensures short[i] != long[0]
    {
      assert short[i] == long[|long| - |short| + i];
    }
  }

  /** What lay below an outer frontier lies below every inner one. */
  lemma BelowAbove(c: Cell, slabs: seq<nat>, ptr: Ptr, slabs': seq<nat>, ptr': Ptr)
    requires Below(c, slabs, ptr) && Front(slabs, ptr) && Front(slabs', ptr') && Distinct(slabs')
    requires Above(slabs, ptr, slabs', ptr')
    ensures Below(c, slabs', ptr')
  {
    InSuffix(slabs, slabs', c.p.block);
    if |slabs| == |slabs'| {
      assert slabs == slabs';
    } else {
      HeadOutside(slabs, slabs');
    }
  }

  lemma DistinctPart(slabs: seq<nat>, free: seq<nat>)
    requires Distinct(slabs + free)
    ensures Distinct(slabs) && Distinct(free)
    ensures forall x | x in slabs :: x !in free
  {
    var all := slabs + free;
    forall i: nat, j: nat | i < j < |slabs|
      ensures slabs[i] != slabs[j]
    {
      assert all[i] != all[j];
    }
    forall i: nat, j: nat | i < j < |free|
      ensures free[i] != free[j]
    {
      assert all[|slabs| + i] != all[|slabs| + j];
    }
    forall x | x in slabs
      ensures x !in free
    {
      var i: nat :| i < |slabs| && slabs[i] == x;
      forall j: nat | j < |free|
        ensures free[j] != x
      {
        assert all[i] != all[|slabs| + j];
      }
    }
  }

  lemma AllBelow(a: Arena, scopes: seq<Scope>, i: nat, c: Cell)
    requires Inv(a, scopes) && i < |scopes| && c in scopes[i].cells
    ensures Below(c, a.slabs, a.ptr)
  {
    assert Kept(a, scopes, i);
    if i + 1 < |scopes| {
      assert Framed(a, scopes, i + 1);
      DistinctPart(a.slabs, a.free);
      BelowAbove(c, scopes[i + 1].slabs, scopes[i + 1].ptr, a.slabs, a.ptr);
    }
  }

  lemma {:induction false} InScope(scopes: seq<Scope>, c: Cell)
    requires c in AllCells(scopes)
    ensures exists i: nat :: i < |scopes| && c in scopes[i].cells
  {
    if c !in scopes[|scopes| - 1].cells {
      InScope(scopes[..|scopes| - 1], c);
    }
  }

  lemma TailOf(short: seq<nat>, long: seq<nat>)
    requires Suffix(short, long) && Distinct(long) && |short| < |long|
    ensures Suffix(short, long[1..]) && Distinct(long[1..]) && Head(long) != Head(short)
  {
    var tail := long[1..];
    HeadOutside(short, long);
    assert tail[|tail| - |short|..] == long[|long| - |short|..];
    forall i: nat, j: nat | i < j < |tail|
      ensures tail[i] != tail[j]
    {
      assert long[i + 1] != long[j + 1];
    }
    assert short != [] ==> short[0] in short;
  }

  lemma {:induction false} UnwoundSuffix(short: seq<nat>, long: seq<nat>)
    requires Suffix(short, long) && Distinct(long)
    ensures Unwound(long, Head(short)) == short
    decreases |long|
  {
    hide Suffix, Distinct;
    SuffixLen(short, long);
    if |short| < |long| {
      TailOf(short, long);
      UnwoundSuffix(short, long[1..]);
    }
  }

  lemma SuffixLen(short: seq<nat>, long: seq<nat>)
    requires Suffix(short, long)
    ensures |short| <= |long| && (|short| == |long| ==> short == long)
  {
  }

  lemma {:induction false} RecycledDistinct(list: seq<nat>, stop: Option, free: seq<nat>)
    requires Distinct(list + free)
    ensures Distinct(Unwound(list, stop) + Recycled(list, stop, free))
    decreases |list|
  {
    if list != [] && Head(list) != stop {
      var all, moved := list + free, list[1..] + ([list[0]] + free);
      forall i: nat, j: nat | i < j < |moved|
        ensures moved[i] != moved[j]
      {
        var n := |list| - 1;
        var i' := if i < n then i + 1 else if i == n then 0 else i;
        var j' := if j < n then j + 1 else if j == n then 0 else j;
        assert moved[i] == all[i'] && moved[j] == all[j'];
      }
      RecycledDistinct(list[1..], stop, [list[0]] + free);
    }
  }

  lemma CloseFinds(a: Arena, scopes: seq<Scope>)
    requires Inv(a, scopes) && scopes != []
    ensures a.frames != []
    ensures var b, s := Close(a), scopes[|scopes| - 1];
            b.slabs == s.slabs && b.ptr == s.ptr && b.bytes == s.bytes && Lies(b)
  {
    var n := |scopes| - 1;
    assert Framed(a, scopes, n);
    DistinctPart(a.slabs, a.free);
    UnwoundSuffix(scopes[n].slabs, a.slabs);
    RecycledDistinct(a.slabs, Head(scopes[n].slabs), a.free);
  }

  /** Frames and scopes below the closing one meet the frontier it restores. */
  lemma CloseFrames(a: Arena, scopes: seq<Scope>, b: Arena)
    requires Inv(a, scopes) && scopes != []
    requires var s := scopes[|scopes| - 1]; b.slabs == s.slabs && b.ptr == s.ptr
    requires b.frames == a.frames[..|a.frames| - 1]
    ensures var outer := scopes[..|scopes| - 1];
            forall i: nat | i < |outer| :: Framed(b, outer, i) && Kept(b, outer, i)
  {
    var n := |scopes| - 1;
    var outer := scopes[..n];
    forall i: nat | i < n
      ensures Framed(b, outer, i) && Kept(b, outer, i)
    {
      assert Framed(a, scopes, i) && Kept(a, scopes, i);
      assert Above(scopes[i].slabs, scopes[i].ptr, scopes[n].slabs, scopes[n].ptr);
    }
  }

  lemma CloseKeeps(a: Arena, scopes: seq<Scope>)
    requires Inv(a, scopes) && scopes != []
    ensures a.frames != [] && Inv(Close(a), scopes[..|scopes| - 1])
  {
    var n := |scopes| - 1;
    var b, outer := Close(a), scopes[..n];
    CloseFinds(a, scopes);
    assert b.frames == a.frames[..n];
    CloseFrames(a, scopes, b);
    ApartPrefix(AllCells(outer), scopes[n].cells);
    hide Lies, Close, Framed, Kept, Above, AllCells, ApartAll;
  }

  lemma ApartPrefix(cs: seq<Cell>, more: seq<Cell>)
    requires ApartAll(cs + more)
    ensures ApartAll(cs)
  {
    var all := cs + more;
    forall i: nat, j: nat | i < j < |cs|
      ensures all[i].p.At? && all[j].p.At? && Apart(cs[i].p, cs[i].size, cs[j].p, cs[j].size)
    {
      assert all[i] == cs[i] && all[j] == cs[j];
    }
    forall i: nat | i < |cs|
      ensures cs[i].p.At?
    {
      assert all[i] == cs[i];
    }
  }

  // Growing, then allocating in the room made.

  lemma GrowFrame(a: Arena, b: Arena, scopes: seq<Scope>, i: nat)
    requires i < |scopes| && |scopes| == |a.frames| && Framed(a, scopes, i) && Kept(a, scopes, i)
    requires b.frames == a.frames && b.slabs != [] && b.slabs[1..] == a.slabs && b.slabs[0] !in a.slabs
    requires b.ptr == At(b.slabs[0], GRANULE)
    ensures Framed(b, scopes, i) && Kept(b, scopes, i)
  {
    var s := scopes[i].slabs;
    assert b.slabs[|b.slabs| - |s|..] == a.slabs[|a.slabs| - |s|..];
    assert b.slabs == [b.slabs[0]] + a.slabs;
  }

  lemma GrowKeeps(a: Arena, scopes: seq<Scope>, block: nat)
    requires Inv(a, scopes) && block !in a.slabs && block !in a.free
    ensures Inv(Grow(a, block), scopes)
  {
    var b := Grow(a, block);
    GrowLies(a, block);
    hide Lies, Grow, Framed, Kept, AllCells, ApartAll;
    forall i: nat | i < |scopes|
      ensures Framed(b, scopes, i) && Kept(b, scopes, i)
    {
      GrowFrame(a, b, scopes, i);
    }
  }

  lemma GrowLies(a: Arena, block: nat)
    requires Lies(a) && block !in a.slabs && block !in a.free
    ensures var b := Grow(a, block);
            && Lies(b) && b.slabs[1..] == a.slabs && b.slabs[0] !in a.slabs && b.ptr == At(b.slabs[0], GRANULE)
            && b.frames == a.frames && b.bytes == a.bytes
  {
    var b := Grow(a, block);
    var id := b.slabs[0];
    var old_, all := a.slabs + a.free, b.slabs + b.free;
    DistinctPart(a.slabs, a.free);
    assert id !in a.slabs;
    if a.free != [] {
      assert a.free == [id] + b.free;
      forall i: nat, j: nat | i < j < |all|
        ensures all[i] != all[j]
      {
        var n := |a.slabs|;
        var i' := if i == 0 then n else if i <= n then i - 1 else i;
        var j' := if j == 0 then n else if j <= n then j - 1 else j;
        assert all[i] == old_[i'] && all[j] == old_[j'];
      }
    } else {
      forall i: nat, j: nat | i < j < |all|
        ensures all[i] != all[j]
      {
        assert all[j] == old_[j - 1] && all[j] in a.slabs;
        if i > 0 {
          assert all[i] == old_[i - 1];
        }
      }
    }
  }

  function Held(scopes: seq<Scope>, c: Cell): seq<Scope>
    requires scopes != []
  {
    var n := |scopes| - 1;
    scopes[n := scopes[n].(cells := scopes[n].cells + [c])]
  }

  function Pushed(a: Arena, sz: nat): Arena
    requires a.ptr.At?
  {
    a.(ptr := At(a.ptr.block, a.ptr.off + sz), bytes := a.bytes + sz, peak := Max(a.peak, a.bytes + sz))
  }

  lemma PushKeeps(a: Arena, scopes: seq<Scope>, sz: nat)
    requires Inv(a, scopes) && scopes != [] && Fits(a, sz)
    ensures Inv(Pushed(a, sz), Held(scopes, Cell(a.ptr, sz)))
  {
    var n, c := |scopes| - 1, Cell(a.ptr, sz);
    var b, more := Pushed(a, sz), Held(scopes, c);
    forall i: nat | i < |more|
      ensures Framed(b, more, i) && Kept(b, more, i)
    {
      assert Framed(a, scopes, i) && Kept(a, scopes, i);
    }
    assert more[..n] == scopes[..n];
    assert AllCells(more) == AllCells(scopes) + [c];
    forall x | x in AllCells(scopes)
      ensures x.p.At? && Apart(x.p, x.size, c.p, sz)
    {
      InScope(scopes, x);
      var i: nat :| i < |scopes| && x in scopes[i].cells;
      AllBelow(a, scopes, i, x);
    }
    ApartMore(AllCells(scopes), c);
  }

  lemma ApartMore(cs: seq<Cell>, c: Cell)
    requires ApartAll(cs) && c.p.At? && forall x | x in cs :: x.p.At? && Apart(x.p, x.size, c.p, c.size)
    ensures ApartAll(cs + [c])
  {
    var all := cs + [c];
    forall i: nat, j: nat | i < j < |all|
      ensures all[i].p.At? && all[j].p.At? && Apart(all[i].p, all[i].size, all[j].p, all[j].size)
    {
      assert all[i] in cs;
    }
  }

  lemma AllocKeeps(a: Arena, scopes: seq<Scope>, sz: nat, block: nat)
    requires Inv(a, scopes) && scopes != [] && sz <= SLAB - GRANULE && block !in a.slabs && block !in a.free
    ensures Inv(Alloc(a, sz, block), Held(scopes, Cell(Room(a, sz, block).ptr, sz)))
  {
    if !Fits(a, sz) {
      GrowKeeps(a, scopes, block);
    }
    var b := Room(a, sz, block);
    assert Fits(b, sz) && Inv(b, scopes);
    assert Alloc(a, sz, block) == Pushed(b, sz);
    hide Inv, Fits, Grow, Room;
    PushKeeps(b, scopes, sz);
  }

  // ---------------------------------------------------------------- runs

  /** `block` is what malloc would return, should the allocation need a slab. */
  datatype Op = DoOpen | DoAlloc(sz: nat, block: nat) | DoClose

  /** `next` bounds the blocks seen so far; `most` is the most slabs ever in use at once. */
  datatype World = World(a: Arena, scopes: seq<Scope>, next: nat, most: nat)

  const START := World(EMPTY, [], 0, 0)

  /** What a client may do: allocate in an open scope, close an open scope. */
  predicate Allowed(w: World, op: Op)
  {
    match op
    case DoOpen => true
    case DoAlloc(sz, block) => w.scopes != [] && sz <= SLAB - GRANULE && w.next <= block
    case DoClose => w.scopes != [] && w.a.frames != []
  }

  function Step(w: World, op: Op): World
    requires Allowed(w, op)
  {
    match op
    case DoOpen => w.(a := Open(w.a), scopes := Opened(w.a, w.scopes))
    case DoAlloc(sz, block) =>
      var b := Alloc(w.a, sz, block);
      World(b, Held(w.scopes, Cell(Room(w.a, sz, block).ptr, sz)), block + 1, Max(w.most, |b.slabs|))
    case DoClose => w.(a := Close(w.a), scopes := w.scopes[..|w.scopes| - 1])
  }

  predicate Runs(w: World, ops: seq<Op>)
    decreases |ops|
  {
    ops == [] || (Allowed(w, ops[0]) && Runs(Step(w, ops[0]), ops[1..]))
  }

  function Run(w: World, ops: seq<Op>): World
    requires Runs(w, ops)
    decreases |ops|
  {
    if ops == [] then w else Run(Step(w, ops[0]), ops[1..])
  }

  ghost predicate Good(w: World)
  {
    && Inv(w.a, w.scopes) && w.most == w.a.nslabs
    && (forall x | x in w.a.slabs :: x < w.next) && (forall x | x in w.a.free :: x < w.next)
  }

  lemma AllocNumbers(a: Arena, sz: nat, block: nat, next: nat)
    requires Lies(a) && next <= block
    requires (forall x | x in a.slabs :: x < next) && (forall x | x in a.free :: x < next)
    ensures var b := Alloc(a, sz, block);
            && (forall x | x in b.slabs :: x < block + 1) && (forall x | x in b.free :: x < block + 1)
            && Max(a.nslabs, |b.slabs|) == b.nslabs
  {
    var b := Alloc(a, sz, block);
    if a.free != [] {
      assert a.free[0] in a.free;
      assert forall x | x in a.free[1..] :: x in a.free;
    }
    assert b.slabs == if Fits(a, sz) then a.slabs else [if a.free != [] then a.free[0] else block] + a.slabs;
    assert b.free == if Fits(a, sz) || a.free == [] then a.free else a.free[1..];
  }

  lemma {:induction false} RecycledFrom(list: seq<nat>, stop: Option, free: seq<nat>)
    ensures forall x | x in Recycled(list, stop, free) :: x in list || x in free
    ensures forall x | x in Unwound(list, stop) :: x in list
    decreases |list|
  {
    if list != [] && Head(list) != stop {
      RecycledFrom(list[1..], stop, [list[0]] + free);
    }
  }

  lemma StepGood(w: World, op: Op)
    requires Good(w) && Allowed(w, op)
    ensures Good(Step(w, op))
  {
    match op
    case DoOpen =>
      OpenKeeps(w.a, w.scopes);
      hide Inv;
    case DoAlloc(sz, block) =>
      AllocKeeps(w.a, w.scopes, sz, block);
      AllocNumbers(w.a, sz, block, w.next);
      hide Inv, Alloc, Held;
    case DoClose =>
      CloseKeeps(w.a, w.scopes);
      RecycledFrom(w.a.slabs, w.a.frames[|w.a.frames| - 1].slab, w.a.free);
      hide Inv, Unwound, Recycled;
  }

  lemma {:induction false} RunGood(w: World, ops: seq<Op>)
    requires Good(w) && Runs(w, ops)
    ensures Good(Run(w, ops))
    decreases |ops|
  {
    hide Good, Step, Allowed;
    if ops != [] {
      StepGood(w, ops[0]);
      RunGood(Step(w, ops[0]), ops[1..]);
    }
  }

  /** In every reachable state: slabs in use and recycled make up all slabs, and that is the most ever in use. */
  lemma SlabAccounting(ops: seq<Op>)
    requires Runs(START, ops)
    ensures var w := Run(START, ops);
            |w.a.slabs| + |w.a.free| == w.a.nslabs == w.most
    ensures var w := Run(START, ops);
            forall i: nat | i < |w.scopes| :: Suffix(w.scopes[i].slabs, w.a.slabs)
  {
    EmptyArena();
    RunGood(START, ops);
    var w := Run(START, ops);
    forall i: nat | i < |w.scopes|
      ensures Suffix(w.scopes[i].slabs, w.a.slabs)
    {
      assert Framed(w.a, w.scopes, i);
    }
  }

  /** The run never closes a scope opened before it, and ends with as many open as it began with. */
  predicate WellNested(depth: nat, ops: seq<Op>)
    decreases |ops|
  {
    if ops == [] then depth == 0
    else
      match ops[0]
      case DoOpen => WellNested(depth + 1, ops[1..])
      case DoAlloc(_, _) => WellNested(depth, ops[1..])
      case DoClose => depth > 0 && WellNested(depth - 1, ops[1..])
  }

  /** The scopes of `w` up to `n`, the `n`-th one perhaps with more cells. */
  ghost predicate Extends(w: World, v: World, n: nat)
  {
    && n < |w.scopes| && n < |v.scopes| && v.scopes[..n] == w.scopes[..n]
    && v.scopes[n].slabs == w.scopes[n].slabs && v.scopes[n].ptr == w.scopes[n].ptr
       && v.scopes[n].bytes == w.scopes[n].bytes
    && n < |w.a.frames| && n < |v.a.frames| && v.a.frames[..n + 1] == w.a.frames[..n + 1]
  }

  lemma StepExtends(w: World, op: Op, n: nat)
    requires Good(w) && Allowed(w, op) && n < |w.scopes| && (op.DoClose? ==> n + 1 < |w.scopes|)
    ensures Extends(w, Step(w, op), n)
  {
    assert |w.scopes| == |w.a.frames|;
    hide Inv, Unwound, Recycled;
  }

  lemma ExtendsSame(w: World, n: nat)
    requires n < |w.scopes| && n < |w.a.frames|
    ensures Extends(w, w, n)
  {
  }

  lemma ExtendsTrans(w: World, u: World, v: World, n: nat)
    requires Extends(w, u, n) && Extends(u, v, n)
    ensures Extends(w, v, n)
  {
  }

  lemma NestedStep(depth: nat, ops: seq<Op>)
    requires ops != [] && WellNested(depth, ops)
    ensures match ops[0]
            case DoOpen => WellNested(depth + 1, ops[1..])
            case DoAlloc(_, _) => WellNested(depth, ops[1..])
            case DoClose => depth > 0 && WellNested(depth - 1, ops[1..])
  {
  }

  lemma RunParts(w: World, ops: seq<Op>)
    requires Runs(w, ops)
    ensures ops == [] ==> Run(w, ops) == w
    ensures ops != [] ==> Allowed(w, ops[0]) && Runs(Step(w, ops[0]), ops[1..])
    ensures ops != [] ==> Run(w, ops) == Run(Step(w, ops[0]), ops[1..])
  {
  }

  lemma NestedEnd(depth: nat)
    requires WellNested(depth, [])
    ensures depth == 0
  {
  }

  lemma {:induction false} RunExtends(w: World, ops: seq<Op>, n: nat)
    requires Good(w) && Runs(w, ops) && n < |w.scopes| && WellNested(|w.scopes| - 1 - n, ops)
    ensures Extends(w, Run(w, ops), n) && |Run(w, ops).scopes| == n + 1
    decreases |ops|
  {
    hide *;
    GoodDepth(w);
    RunParts(w, ops);
    if ops == [] {
      NestedEnd(|w.scopes| - 1 - n);
      ExtendsSame(w, n);
    } else {
      NestedStep(|w.scopes| - 1 - n, ops);
      StepGood(w, ops[0]);
      StepDepth(w, ops[0]);
      StepExtends(w, ops[0], n);
      var u := Step(w, ops[0]);
      RunExtends(u, ops[1..], n);
      ExtendsTrans(w, u, Run(u, ops[1..]), n);
    }
  }

  lemma GoodDepth(w: World)
    requires Good(w)
    ensures |w.scopes| == |w.a.frames|
  {
  }

  lemma StepDepth(w: World, op: Op)
    requires Allowed(w, op)
    ensures |Step(w, op).scopes| ==
            match op case DoOpen => |w.scopes| + 1 case DoAlloc(_, _) => |w.scopes| case DoClose => |w.scopes| - 1
  {
  }

  /**
    Closing a scope after any well-nested run restores the slab list, the frontier, the byte
    count and the depth of its open, and leaves every outer scope with the cells it had.
   */
  lemma ArenaLifo(w: World, ops: seq<Op>)
    requires Good(w) && Runs(Step(w, DoOpen), ops) && WellNested(0, ops)
    ensures var v := Run(Step(w, DoOpen), ops);
            Allowed(v, DoClose) &&
            var z := Step(v, DoClose);
            && z.a.slabs == w.a.slabs && z.a.ptr == w.a.ptr && z.a.bytes == w.a.bytes && z.a.frames == w.a.frames
            && z.scopes == w.scopes && Good(z)
  {
    var o, n := Step(w, DoOpen), |w.scopes|;
    StepGood(w, DoOpen);
    RunGood(o, ops);
    RunExtends(o, ops, n);
    var v := Run(o, ops);
    GoodDepth(w);
    GoodDepth(v);
    LifoClose(w, v, n);
  }

  lemma StepParts(w: World)
    ensures Allowed(w, DoOpen)
    ensures var o := Step(w, DoOpen);
            && o.a.frames == w.a.frames + [Frame(Head(w.a.slabs), w.a.ptr, w.a.bytes)]
            && o.scopes == w.scopes + [Scope(w.a.slabs, w.a.ptr, w.a.bytes, [])]
    ensures w.scopes != [] && w.a.frames != [] ==>
              Allowed(w, DoClose) && Step(w, DoClose).scopes == w.scopes[..|w.scopes| - 1] &&
              Step(w, DoClose).a == Close(w.a) && Close(w.a).frames == w.a.frames[..|w.a.frames| - 1]
  {
    hide Unwound, Recycled, Head;
  }

  /** What an extension of the state just after an open still holds at level `n`. */
  lemma ExtendsOpen(w: World, o: World, v: World, n: nat)
    requires n == |w.scopes| == |w.a.frames| && |v.scopes| == n + 1 == |v.a.frames|
    requires |o.a.frames| == n + 1 && o.a.frames[..n] == w.a.frames
    requires o.scopes == w.scopes + [Scope(w.a.slabs, w.a.ptr, w.a.bytes, [])] && Extends(o, v, n)
    ensures v.scopes[..n] == w.scopes && v.a.frames[..n] == w.a.frames
    ensures v.scopes[n].slabs == w.a.slabs && v.scopes[n].ptr == w.a.ptr && v.scopes[n].bytes == w.a.bytes
  {
    assert o.scopes[..n] == w.scopes;
    assert v.a.frames == o.a.frames[..n + 1];
  }

  lemma GoodInv(w: World)
    requires Good(w)
    ensures Inv(w.a, w.scopes)
  {
    hide Inv;
  }

  lemma LifoClose(w: World, v: World, n: nat)
    requires Good(w) && Good(v) && n == |w.scopes| == |w.a.frames| && |v.scopes| == n + 1 == |v.a.frames|
    requires Allowed(w, DoOpen) && Extends(Step(w, DoOpen), v, n)
    ensures Allowed(v, DoClose)
    ensures var z := Step(v, DoClose);
            && z.a.slabs == w.a.slabs && z.a.ptr == w.a.ptr && z.a.bytes == w.a.bytes && z.a.frames == w.a.frames
            && z.scopes == w.scopes && Good(z)
  {
    hide *;
    var o := Step(w, DoOpen);
    StepParts(w);
    StepParts(v);
    GoodInv(v);
    CloseFinds(v.a, v.scopes);
    StepGood(v, DoClose);
    assert o.a.frames[..n] == w.a.frames;
    ExtendsOpen(w, o, v, n);
  }

  /** No two cells of open scopes share a byte, and none lies beyond the frontier. */
  lemma ArenaSeparation(a: Arena, scopes: seq<Scope>, i: nat, c: Cell)
    requires Inv(a, scopes) && i < |scopes| && c in scopes[i].cells
    ensures Below(c, a.slabs, a.ptr) && ApartAll(AllCells(scopes))
  {
    AllBelow(a, scopes, i, c);
  }
}
