/**
  The counted region of the slab backend (runtime/wok_rc.c:606-1023) on values: bump slabs, and
  one intrusive free list per size class whose links overwrite the headers of dead cells.
  `Track` is what a client knows: which cells it holds and what shape each has.
*/
module CountedHeap {
  import opened Cells

  datatype Region = Region(blocks: nat, mem: map<Ptr, Word>, slabs: seq<nat>, bump: Ptr, free: seq<Ptr>)

  const EMPTY := Region(0, map[], [], Null, seq(CLASSES, _ => Null))

  // ---------------------------------------------------------------- allocation and release

  predicate Fits(r: Region, sz: nat)
  {
    r.bump.At? && r.bump.off + sz <= SLAB
  }

  /** A fresh slab in front of the list; cells start one granule in. */
  function NewSlab(r: Region): Region
  {
    r.(blocks := r.blocks + 1, slabs := [r.blocks] + r.slabs, bump := At(r.blocks, GRANULE))
  }

  function Room(r: Region, sz: nat): Region
  {
    if Fits(r, sz) then r else NewSlab(r)
  }

  datatype Taken = Taken(r: Region, p: Ptr)

  /** The head of the free list, if there is one, holds the link to the next dead cell. */
  predicate Linked(r: Region, c: nat)
  {
    && |r.free| == CLASSES
    && (c < CLASSES && r.free[c].At? ==> r.free[c] in r.mem && r.mem[r.free[c]].Link?)
    && (r.bump.Null? ==> r.slabs == [])
  }

  /** Where the next cell of class `c` comes from: its free list, the bump pointer, or malloc. */
  function Take(r: Region, c: nat, sz: nat): (t: Taken)
    requires Linked(r, c)
    ensures t.p.At?
  {
    if c >= CLASSES then Taken(r.(blocks := r.blocks + 1), At(r.blocks, 0))
    else if r.free[c].At? then
      Taken(r.(free := r.free[c := r.mem[r.free[c]].next]), r.free[c])
    else
      var room := Room(r, sz);
      Taken(room.(bump := At(room.bump.block, room.bump.off + sz)), room.bump)
  }

  function Stamp(mem: map<Ptr, Word>, p: Ptr, s: Shape): map<Ptr, Word>
    requires p.At?
  {
    Put(mem[p := Header(1, TagOf(s), ArityByte(s))], Plus(p, 8), Words(s))
  }

  function Alloc(r: Region, s: Shape): (t: Taken)
    requires Linked(r, Class(s))
    ensures t.p.At?
  {
    var t := Take(r, Class(s), CellBytes(s));
    Taken(t.r.(mem := Stamp(t.r.mem, t.p, s)), t.p)
  }

  /** The class wok_free reads off a cell. */
  function RouteOf(mem: map<Ptr, Word>, p: Ptr): nat
    requires p.At? && p in mem && mem[p].Header?
    requires ReadsLength(mem[p].tag) ==> Plus(p, 8) in mem && mem[Plus(p, 8)].Length?
  {
    Route(mem[p], if ReadsLength(mem[p].tag) then mem[Plus(p, 8)].len else 0)
  }

  /** Back to the free list of its class; a large cell goes back to the system. */
  function Release(r: Region, p: Ptr, c: nat): Region
    requires |r.free| == CLASSES
  {
    if c < CLASSES then r.(mem := r.mem[p := Link(r.free[c])], free := r.free[c := p]) else r
  }

  // ---------------------------------------------------------------- the client's view

  /**
    `cells`: every slab cell ever bumped, with its class. `live`: the cells the client holds.
    `chains`: the free lists. `fills`: bytes bumped in each slab. `peak`: the most cells of a
    class ever live at once.
   */
  datatype Track = Track(cells: map<Ptr, nat>, live: map<Ptr, Shape>, chains: seq<seq<Ptr>>, bumped: seq<nat>,
                         peak: seq<nat>, fills: seq<nat>)

  const NOTHING := Track(map[], map[], seq(CLASSES, _ => []), seq(CLASSES, _ => 0), seq(CLASSES, _ => 0), [])

  function Held(live: map<Ptr, Shape>, c: nat): set<Ptr>
  {
    set p | p in live && Class(live[p]) == c
  }

  /** The cells lie in their slabs, below the bump pointer, and nowhere overlap. */
  ghost predicate Placed(r: Region, p: Ptr, c: nat)
  {
    && p.At? && c < CLASSES && p.block in r.slabs && p.off >= GRANULE && p.off % 8 == 0
    && p.off + 8 * (c + 1) <= SLAB
    && (r.bump.At? && p.block == r.bump.block ==> p.off + 8 * (c + 1) <= r.bump.off)
  }

  ghost predicate Frontier(r: Region)
  {
    && (r.slabs == [] <==> r.bump == Null)
    && (r.slabs != [] ==> r.bump.At? && r.bump.block == r.slabs[0])
    && (r.slabs != [] ==> GRANULE <= r.bump.off <= SLAB && r.bump.off % 8 == 0)
    && (forall i: nat, j: nat | i < j < |r.slabs| :: r.slabs[i] != r.slabs[j])
    && (forall i: nat | i < |r.slabs| :: r.slabs[i] < r.blocks)
    && |r.free| == CLASSES
  }

  ghost predicate Geometry(r: Region, cells: map<Ptr, nat>)
  {
    && (forall p | p in cells :: Placed(r, p, cells[p]))
    && (forall p, q | p in cells && q in cells && p != q :: Apart(p, 8 * (cells[p] + 1), q, 8 * (cells[q] + 1)))
  }

  /** A live cell is a slab cell of its class, or a malloc block of its own. */
  ghost predicate Holds(r: Region, cells: map<Ptr, nat>, p: Ptr, s: Shape)
  {
    && Proper(s) && p.At?
    && (if Class(s) < CLASSES then p in cells && cells[p] == Class(s)
        else p.off == 0 && p.block < r.blocks && p.block !in r.slabs)
  }

  /** What the memory of a live cell still says about it. */
  ghost predicate Marked(mem: map<Ptr, Word>, p: Ptr, s: Shape)
  {
    && p.At? && p in mem && mem[p].Header? && mem[p].tag == TagOf(s) && mem[p].arity == ArityByte(s)
    && (forall k: nat | 0 < k <= |Words(s)| :: Granule(p, k) in mem && mem[Granule(p, k)] == Words(s)[k - 1])
  }

  /** The free list that starts at `head`, link by link through the dead cells. */
  ghost predicate Chained(mem: map<Ptr, Word>, head: Ptr, chain: seq<Ptr>)
    decreases |chain|
  {
    if chain == [] then head == Null
    else head == chain[0] && head.At? && head in mem && mem[head].Link? && Chained(mem, mem[head].next, chain[1..])
  }

  ghost predicate Free(r: Region, t: Track, c: nat)
    requires c < |t.chains| && c < |r.free|
  {
    && Chained(r.mem, r.free[c], t.chains[c])
    && (forall p | p in t.chains[c] :: p in t.cells && t.cells[p] == c && p !in t.live)
    && (forall i: nat, j: nat | i < j < |t.chains[c]| :: t.chains[c][i] != t.chains[c][j])
  }

  /** Cells bumped, cells live and cells free, class by class. */
  ghost predicate Counted(t: Track, c: nat)
    requires c < |t.chains| && c < |t.bumped| && c < |t.peak|
  {
    t.bumped[c] == |Held(t.live, c)| + |t.chains[c]| && t.peak[c] == t.bumped[c]
  }

  function Sum(xs: seq<nat>): nat
  {
    if xs == [] then 0 else Sum(xs[..|xs| - 1]) + xs[|xs| - 1]
  }

  /** Bytes of `n[c]` cells of each class. */
  function Weigh(n: seq<nat>): nat
  {
    if n == [] then 0 else Weigh(n[..|n| - 1]) + 8 * |n| * n[|n| - 1]
  }

  ghost predicate Filled(r: Region, t: Track)
  {
    && |t.fills| == |r.slabs| && Sum(t.fills) == Weigh(t.bumped)
    && (r.bump.At? && t.fills != [] ==> t.fills[0] == r.bump.off - GRANULE)
    && (forall i: nat | 0 < i < |t.fills| :: t.fills[i] >= 65024)
  }

  ghost predicate Sized(t: Track)
  {
    |t.chains| == CLASSES && |t.bumped| == CLASSES && |t.peak| == CLASSES
  }

  ghost predicate Live(r: Region, t: Track)
  {
    forall p | p in t.live :: Holds(r, t.cells, p, t.live[p]) && Marked(r.mem, p, t.live[p])
  }

  ghost predicate Lists(r: Region, t: Track)
  {
    Sized(t) && |r.free| == CLASSES && forall c: nat | c < CLASSES :: Free(r, t, c)
  }

  ghost predicate Counts(t: Track)
  {
    Sized(t) && forall c: nat | c < CLASSES :: Counted(t, c)
  }

  ghost predicate Inv(r: Region, t: Track)
  {
    Frontier(r) && Geometry(r, t.cells) && Live(r, t) && Lists(r, t) && Counts(t) && Filled(r, t)
  }

  // ---------------------------------------------------------------- what an allocation adds to the view

  function Max(a: nat, b: nat): nat
  {
    if a < b then b else a
  }

  /** The client now holds `p`; the high-water mark of its class follows. */
  function Given(t: Track, p: Ptr, s: Shape): Track
    requires |t.peak| == CLASSES
  {
    var live := t.live[p := s];
    var c := Class(s);
    t.(live := live, peak := if c < CLASSES then t.peak[c := Max(t.peak[c], |Held(live, c)|)] else t.peak)
  }

  function Popped(t: Track, c: nat): Track
    requires c < |t.chains| && t.chains[c] != []
  {
    t.(chains := t.chains[c := t.chains[c][1..]])
  }

  function Opened(r: Region, t: Track, sz: nat): Track
  {
    if Fits(r, sz) then t else t.(fills := [0] + t.fills)
  }

  function Grown(t: Track, p: Ptr, c: nat, sz: nat): Track
    requires c < |t.bumped| && t.fills != []
  {
    t.(cells := t.cells[p := c], bumped := t.bumped[c := t.bumped[c] + 1], fills := t.fills[0 := t.fills[0] + sz])
  }

  /** What happens to the view before the client is given the cell. */
  ghost function Source(r: Region, t: Track, s: Shape): (t': Track)
    requires Inv(r, t)
    ensures t'.live == t.live && t'.peak == t.peak
  {
    var c := Class(s);
    if c >= CLASSES then t
    else if r.free[c].At? then
      PoppedChain(r, t, c);
      Popped(t, c)
    else
      RoomFills(r, t, 8 * (c + 1));
      var room := Room(r, 8 * (c + 1));
      Grown(Opened(r, t, 8 * (c + 1)), room.bump, c, 8 * (c + 1))
  }

  ghost function AllocTrack(r: Region, t: Track, s: Shape): Track
    requires Inv(r, t)
  {
    InvLinked(r, t, Class(s));
    Given(Source(r, t, s), Alloc(r, s).p, s)
  }

  lemma InvLinked(r: Region, t: Track, c: nat)
    requires Inv(r, t)
    ensures Linked(r, c)
  {
    if c < CLASSES {
      assert Free(r, t, c);
    }
  }

  lemma PoppedChain(r: Region, t: Track, c: nat)
    requires Inv(r, t) && c < CLASSES
    ensures r.free[c].At? <==> t.chains[c] != []
    ensures t.chains[c] != [] ==> r.free[c] == t.chains[c][0]
  {
    assert Free(r, t, c);
  }

  // ---------------------------------------------------------------- writes stay inside their own cell

  /** A cell whose words are kept still says what it said. */
  lemma MarkedKept(mem: map<Ptr, Word>, mem': map<Ptr, Word>, q: Ptr, s: Shape)
    requires Marked(mem, q, s) && CellKept(mem, mem', q, CellBytes(s))
    ensures Marked(mem', q, s)
  {
    assert SameWord(mem, mem', Granule(q, 0)) && Granule(q, 0) == q;
    forall k: nat | 0 < k <= |Words(s)|
      ensures Granule(q, k) in mem' && mem'[Granule(q, k)] == Words(s)[k - 1]
    {
      assert SameWord(mem, mem', Granule(q, k));
    }
  }

  /** Writing a fresh cell touches nothing outside it. */
  lemma StampKeeps(mem: map<Ptr, Word>, p: Ptr, s: Shape, q: Ptr, n: nat)
    requires p.At? && q.At? && Apart(p, CellBytes(s), q, n) && n > 0
    ensures CellKept(mem, Stamp(mem, p, s), q, n)
  {
    var header := mem[p := Header(1, TagOf(s), ArityByte(s))];
    forall k: nat | 8 * k < n
      ensures SameWord(mem, Stamp(mem, p, s), Granule(q, k))
    {
      PutKeeps(header, Plus(p, 8), Words(s), Granule(q, k));
    }
    assert Granule(q, 0) == q;
  }

  lemma StampMarks(mem: map<Ptr, Word>, p: Ptr, s: Shape)
    requires p.At?
    ensures Marked(Stamp(mem, p, s), p, s) && Stamp(mem, p, s)[p].rc == 1
  {
    var header := mem[p := Header(1, TagOf(s), ArityByte(s))];
    PutKeeps(header, Plus(p, 8), Words(s), p);
    forall k: nat | 0 < k <= |Words(s)|
      ensures Granule(p, k) in Stamp(mem, p, s) && Stamp(mem, p, s)[Granule(p, k)] == Words(s)[k - 1]
    {
      PutHolds(header, Plus(p, 8), Words(s), k - 1);
      assert Granule(Plus(p, 8), k - 1) == Granule(p, k);
    }
  }

  lemma {:induction false} ChainedKept(mem: map<Ptr, Word>, mem': map<Ptr, Word>, head: Ptr, chain: seq<Ptr>)
    requires Chained(mem, head, chain)
    requires forall p | p in chain && p in mem :: p in mem' && mem'[p] == mem[p]
    ensures Chained(mem', head, chain)
    decreases |chain|
  {
    if chain != [] {
      assert chain[0] in chain;
      assert forall p | p in chain[1..] :: p in chain;
      ChainedKept(mem, mem', mem[head].next, chain[1..]);
    }
  }

  /** Two live cells share no byte. */
  lemma LiveApart(r: Region, t: Track, p: Ptr, q: Ptr)
    requires Geometry(r, t.cells) && Live(r, t) && p in t.live && q in t.live && p != q
    ensures p.At? && q.At? && Apart(p, CellBytes(t.live[p]), q, CellBytes(t.live[q]))
  {
    assert Holds(r, t.cells, p, t.live[p]) && Holds(r, t.cells, q, t.live[q]);
    PlaceApart(r, t.cells, p, t.live[p], q, t.live[q]);
  }

  /** Places of two shapes, wherever they come from. */
  lemma PlaceApart(r: Region, cells: map<Ptr, nat>, p: Ptr, a: Shape, q: Ptr, b: Shape)
    requires Geometry(r, cells) && Holds(r, cells, p, a) && Holds(r, cells, q, b) && p != q
    ensures p.At? && q.At? && Apart(p, CellBytes(a), q, CellBytes(b))
  {
    ClassFixesSize(a);
    ClassFixesSize(b);
    if Class(a) < CLASSES && Class(b) < CLASSES {
      assert Apart(p, 8 * (cells[p] + 1), q, 8 * (cells[q] + 1));
    } else if Class(a) < CLASSES {
      assert Placed(r, p, cells[p]);
    } else if Class(b) < CLASSES {
      assert Placed(r, q, cells[q]);
    }
  }

  /** A place of its own shares no byte with a slab cell that is not it. */
  lemma CellApart(r: Region, cells: map<Ptr, nat>, p: Ptr, a: Shape, q: Ptr)
    requires Geometry(r, cells) && Holds(r, cells, p, a) && q in cells && p != q
    ensures p.At? && q.At? && Apart(p, CellBytes(a), q, 8 * (cells[q] + 1))
  {
    ClassFixesSize(a);
    assert Placed(r, q, cells[q]);
    if Class(a) < CLASSES {
      assert Apart(p, 8 * (cells[p] + 1), q, 8 * (cells[q] + 1));
    }
  }

  /** A live cell shares no byte with a dead one. */
  lemma DeadApart(r: Region, t: Track, p: Ptr, c: nat, q: Ptr)
    requires Geometry(r, t.cells) && Live(r, t) && Lists(r, t) && p in t.live && c < CLASSES && q in t.chains[c]
    ensures p.At? && q.At? && Apart(p, CellBytes(t.live[p]), q, 8 * (c + 1))
  {
    assert Holds(r, t.cells, p, t.live[p]) && Free(r, t, c);
    CellApart(r, t.cells, p, t.live[p], q);
  }

  /** A write to a word of a held cell leaves every other held cell as it is. */
  lemma WriteKeeps(r: Region, t: Track, p: Ptr, k: nat, w: Word, q: Ptr)
    requires Geometry(r, t.cells) && Live(r, t) && p in t.live && q in t.live && p != q
    requires 8 * k < CellBytes(t.live[p])
    ensures p.At? && CellKept(r.mem, r.mem[Granule(p, k) := w], q, CellBytes(t.live[q]))
  {
    LiveApart(r, t, p, q);
    OutsideKeeps(r.mem, p, CellBytes(t.live[p]), k, w, q, CellBytes(t.live[q]));
  }

  /** A client's store into a cell it holds, past the words the allocator reads. */
  predicate Storable(s: Shape, k: nat)
  {
    |Words(s)| < k && 8 * k < CellBytes(s)
  }

  lemma StoreKeeps(r: Region, t: Track, p: Ptr, k: nat, w: Word)
    requires Inv(r, t) && p in t.live && p.At? && Storable(t.live[p], k)
    ensures Inv(r.(mem := r.mem[Granule(p, k) := w]), t)
  {
    var r' := r.(mem := r.mem[Granule(p, k) := w]);
    forall q | q in t.live
      ensures Holds(r', t.cells, q, t.live[q]) && Marked(r'.mem, q, t.live[q])
    {
      assert Holds(r, t.cells, q, t.live[q]);
      if q != p {
        WriteKeeps(r, t, p, k, w, q);
        MarkedKept(r.mem, r'.mem, q, t.live[q]);
      }
    }
    StoreLists(r, t, p, k, w);
    GeometrySame(r, r', t.cells);
    hide Geometry, Live, Lists, Counts;
  }

  lemma GeometrySame(r: Region, r': Region, cells: map<Ptr, nat>)
    requires Geometry(r, cells) && r'.slabs == r.slabs && r'.bump == r.bump
    ensures Geometry(r', cells)
  {
    forall p | p in cells
      ensures Placed(r', p, cells[p])
    {
      assert Placed(r, p, cells[p]);
    }
  }

  lemma StoreLists(r: Region, t: Track, p: Ptr, k: nat, w: Word)
    requires Geometry(r, t.cells) && Live(r, t) && Lists(r, t) && p in t.live && p.At? && 8 * k < CellBytes(t.live[p])
    ensures Lists(r.(mem := r.mem[Granule(p, k) := w]), t)
  {
    var r' := r.(mem := r.mem[Granule(p, k) := w]);
    forall c: nat | c < CLASSES
      ensures Free(r', t, c)
    {
      assert Free(r, t, c);
      forall q | q in t.chains[c]
        ensures Granule(p, k) != q
      {
        DeadApart(r, t, p, c, q);
      }
      ChainedKept(r.mem, r'.mem, r.free[c], t.chains[c]);
    }
  }

  // ---------------------------------------------------------------- giving a cell to the client

  lemma HeldGains(live: map<Ptr, Shape>, p: Ptr, s: Shape, c: nat)
    requires p !in live
    ensures Held(live[p := s], c) == if Class(s) == c then Held(live, c) + {p} else Held(live, c)
    ensures |Held(live[p := s], c)| == |Held(live, c)| + if Class(s) == c then 1 else 0
  {
    assert p !in Held(live, c);
  }

  /** A place the client can be given: placed like its class demands, apart from every live and dead cell. */
  ghost predicate Vacant(r: Region, t: Track, p: Ptr, s: Shape)
  {
    && Sized(t) && p !in t.live && Holds(r, t.cells, p, s)
    && (forall c: nat | c < CLASSES :: p !in t.chains[c])
  }

  lemma GivenLive(r: Region, t: Track, p: Ptr, s: Shape)
    requires Geometry(r, t.cells) && Live(r, t) && Lists(r, t) && Vacant(r, t, p, s)
    ensures Live(r.(mem := Stamp(r.mem, p, s)), Given(t, p, s))
  {
    var r', t' := r.(mem := Stamp(r.mem, p, s)), Given(t, p, s);
    forall q | q in t'.live
      ensures Holds(r', t'.cells, q, t'.live[q]) && Marked(r'.mem, q, t'.live[q])
    {
      if q == p {
        StampMarks(r.mem, p, s);
      } else {
        assert Holds(r, t.cells, q, t.live[q]) && Marked(r.mem, q, t.live[q]);
        PlaceApart(r, t.cells, p, s, q, t.live[q]);
        StampKeeps(r.mem, p, s, q, CellBytes(t.live[q]));
        MarkedKept(r.mem, r'.mem, q, t.live[q]);
      }
    }
    hide Geometry, Lists, Marked, CellKept, Stamp;
  }

  lemma GivenLists(r: Region, t: Track, p: Ptr, s: Shape)
    requires Geometry(r, t.cells) && Lists(r, t) && Vacant(r, t, p, s)
    ensures Lists(r.(mem := Stamp(r.mem, p, s)), Given(t, p, s))
  {
    var r', t' := r.(mem := Stamp(r.mem, p, s)), Given(t, p, s);
    forall c: nat | c < CLASSES
      ensures Free(r', t', c)
    {
      assert Free(r, t, c);
      forall q | q in t.chains[c]
        ensures SameWord(r.mem, r'.mem, q)
      {
        CellApart(r, t.cells, p, s, q);
        StampKeeps(r.mem, p, s, q, 8 * (c + 1));
        assert Granule(q, 0) == q;
      }
      hide Stamp;
      ChainedKept(r.mem, r'.mem, r.free[c], t.chains[c]);
    }
  }

  /** Class by class, what was counted before one more cell went live. */
  ghost predicate Spare(t: Track, c: nat)
  {
    && Sized(t)
    && forall d: nat | d < CLASSES ::
         && t.bumped[d] == |Held(t.live, d)| + |t.chains[d]| + (if d == c then 1 else 0)
         && Max(t.peak[d], if d == c then |Held(t.live, d)| + 1 else 0) == t.bumped[d]
  }

  lemma GivenCounts(t: Track, p: Ptr, s: Shape)
    requires Spare(t, Class(s)) && p !in t.live
    ensures Counts(Given(t, p, s))
  {
    var t' := Given(t, p, s);
    forall d: nat | d < CLASSES
      ensures Counted(t', d)
    {
      HeldGains(t.live, p, s, d);
      HeldGains(t.live, p, s, Class(s));
    }
  }

  lemma GivenKeeps(r: Region, t: Track, p: Ptr, s: Shape)
    requires Frontier(r) && Geometry(r, t.cells) && Live(r, t) && Lists(r, t) && Filled(r, t)
    requires Vacant(r, t, p, s) && Spare(t, Class(s))
    ensures Inv(r.(mem := Stamp(r.mem, p, s)), Given(t, p, s))
  {
    var r', t' := r.(mem := Stamp(r.mem, p, s)), Given(t, p, s);
    GivenLive(r, t, p, s);
    GivenLists(r, t, p, s);
    GivenCounts(t, p, s);
    GeometrySame(r, r', t.cells);
    hide Geometry, Live, Lists, Counts, Spare, Vacant, Stamp;
  }

  // ---------------------------------------------------------------- the three sources of a cell

  lemma PopKeeps(r: Region, t: Track, s: Shape)
    requires Inv(r, t) && Proper(s) && Class(s) < CLASSES && r.free[Class(s)].At?
    ensures Linked(r, Class(s))
    ensures Inv(Alloc(r, s).r, AllocTrack(r, t, s)) && Alloc(r, s).p !in t.live
  {
    var c := Class(s);
    InvLinked(r, t, c);
    PoppedChain(r, t, c);
    var r', t', p := Take(r, c, CellBytes(s)).r, Popped(t, c), r.free[c];
    PopLists(r, t, c);
    PopSpare(r, t, c);
    PopLive(r, r', t, t');
    GeometrySame(r, r', t.cells);
    PopVacant(r, t, s);
    assert Frontier(r') && Filled(r', t');
    hide Geometry, Live, Lists, Counts, Frontier, Filled, Spare, Vacant;
    GivenKeeps(r', t', p, s);
  }

  lemma PopLive(r: Region, r': Region, t: Track, t': Track)
    requires Live(r, t) && t'.cells == t.cells && t'.live == t.live
    requires r'.mem == r.mem && r'.slabs == r.slabs && r'.blocks >= r.blocks
    ensures Live(r', t')
  {
    forall p | p in t'.live
      ensures Holds(r', t'.cells, p, t'.live[p]) && Marked(r'.mem, p, t'.live[p])
    {
      assert Holds(r, t.cells, p, t.live[p]);
    }
  }

  lemma PopLists(r: Region, t: Track, c: nat)
    requires Inv(r, t) && c < CLASSES && r.free[c].At? && t.chains[c] != []
    requires r.free[c] in r.mem && r.mem[r.free[c]].Link?
    ensures Lists(r.(free := r.free[c := r.mem[r.free[c]].next]), Popped(t, c))
    ensures forall d: nat | d < CLASSES :: r.free[c] !in Popped(t, c).chains[d]
  {
    var r', t' := r.(free := r.free[c := r.mem[r.free[c]].next]), Popped(t, c);
    assert Free(r, t, c);
    var chain, rest := t.chains[c], t.chains[c][1..];
    assert forall p | p in rest :: p in chain;
    assert forall i: nat | i < |rest| :: rest[i] == chain[i + 1];
    forall d: nat | d < CLASSES
      ensures Free(r', t', d) && r.free[c] !in t'.chains[d]
    {
      assert Free(r, t, d);
      assert chain[0] in chain;
    }
  }

  lemma PopSpare(r: Region, t: Track, c: nat)
    requires Inv(r, t) && c < CLASSES && t.chains[c] != []
    ensures Spare(Popped(t, c), c)
  {
    var t' := Popped(t, c);
    forall d: nat | d < CLASSES
      ensures t'.bumped[d] == |Held(t'.live, d)| + |t'.chains[d]| + (if d == c then 1 else 0)
      ensures Max(t'.peak[d], if d == c then |Held(t'.live, d)| + 1 else 0) == t'.bumped[d]
    {
      assert Counted(t, d);
    }
  }

  lemma PopVacant(r: Region, t: Track, s: Shape)
    requires Inv(r, t) && Proper(s) && Class(s) < CLASSES && r.free[Class(s)].At? && t.chains[Class(s)] != []
    requires r.free[Class(s)] in r.mem && r.mem[r.free[Class(s)]].Link? && r.free[Class(s)] == t.chains[Class(s)][0]
    ensures var c := Class(s);
            Vacant(r.(free := r.free[c := r.mem[r.free[c]].next]), Popped(t, c), r.free[c], s)
  {
    var c := Class(s);
    PopLists(r, t, c);
    assert Free(r, t, c);
    assert t.chains[c][0] in t.chains[c];
  }

  lemma BigKeeps(r: Region, t: Track, s: Shape)
    requires Inv(r, t) && Proper(s) && Class(s) >= CLASSES
    ensures Linked(r, Class(s))
    ensures Inv(Alloc(r, s).r, AllocTrack(r, t, s)) && Alloc(r, s).p !in t.live
  {
    InvLinked(r, t, Class(s));
    var r', p := r.(blocks := r.blocks + 1), At(r.blocks, 0);
    PopLive(r, r', t, t);
    GeometrySame(r, r', t.cells);
    BigVacant(r, t, p, s);
    BigSpare(t, Class(s));
    BigLists(r, r', t);
    assert Frontier(r') && Filled(r', t);
    hide Geometry, Live, Lists, Counts, Frontier, Filled, Spare, Vacant;
    GivenKeeps(r', t, p, s);
  }

  lemma BigLists(r: Region, r': Region, t: Track)
    requires Lists(r, t) && r'.mem == r.mem && r'.free == r.free
    ensures Lists(r', t)
  {
    forall c: nat | c < CLASSES
      ensures Free(r', t, c)
    {
      assert Free(r, t, c);
    }
  }

  lemma BigSpare(t: Track, c: nat)
    requires Counts(t) && c >= CLASSES
    ensures Spare(t, c)
  {
    forall d: nat | d < CLASSES
      ensures t.bumped[d] == |Held(t.live, d)| + |t.chains[d]| && Max(t.peak[d], 0) == t.bumped[d]
    {
      assert Counted(t, d);
    }
  }

  /** A block malloc has just handed out is nobody's. */
  lemma BigVacant(r: Region, t: Track, p: Ptr, s: Shape)
    requires Inv(r, t) && Proper(s) && Class(s) >= CLASSES && p == At(r.blocks, 0)
    ensures Vacant(r.(blocks := r.blocks + 1), t, p, s)
  {
    forall q | q in t.live
      ensures q != p
    {
      assert Holds(r, t.cells, q, t.live[q]);
    }
    forall q | q in t.cells
      ensures q != p
    {
      assert Placed(r, q, t.cells[q]);
    }
    forall c: nat | c < CLASSES
      ensures p !in t.chains[c]
    {
      assert Free(r, t, c);
    }
  }

  lemma {:induction false} SumFront(x: nat, xs: seq<nat>)
    ensures Sum([x] + xs) == x + Sum(xs)
  {
    var all := [x] + xs;
    if xs == [] {
      assert all[..0] == [];
    } else {
      SumFront(x, xs[..|xs| - 1]);
      assert all[..|all| - 1] == [x] + xs[..|xs| - 1];
    }
  }

  lemma SumFirst(xs: seq<nat>, d: nat)
    requires xs != []
    ensures Sum(xs[0 := xs[0] + d]) == Sum(xs) + d
  {
    var rest := xs[1..];
    assert xs == [xs[0]] + rest;
    assert xs[0 := xs[0] + d] == [xs[0] + d] + rest;
    SumFront(xs[0], rest);
    SumFront(xs[0] + d, rest);
  }

  lemma {:induction false} WeighOne(n: seq<nat>, c: nat)
    requires c < |n|
    ensures Weigh(n[c := n[c] + 1]) == Weigh(n) + 8 * (c + 1)
  {
    var m := n[c := n[c] + 1];
    if c == |n| - 1 {
      assert m[..|m| - 1] == n[..|n| - 1];
    } else {
      WeighOne(n[..|n| - 1], c);
      assert m[..|m| - 1] == n[..|n| - 1][c := n[c] + 1];
    }
  }

  /** A slab is left only when less than the largest class is missing, so almost all of it is used. */
  lemma RoomFills(r: Region, t: Track, sz: nat)
    requires Frontier(r) && Filled(r, t) && sz <= 8 * CLASSES && sz % 8 == 0
    ensures Filled(Room(r, sz), Opened(r, t, sz)) && Opened(r, t, sz).fills != []
    ensures Fits(Room(r, sz), sz)
  {
    SumFront(0, t.fills);
    if !Fits(r, sz) {
      var fills := [0] + t.fills;
      assert forall i: nat | 1 < i < |fills| :: fills[i] == t.fills[i - 1];
      assert |fills| > 1 ==> fills[1] == t.fills[0];
    }
  }

  lemma FillsAside(r: Region, t: Track, fills: seq<nat>)
    ensures var t' := t.(fills := fills);
            (Live(r, t) ==> Live(r, t')) && (Lists(r, t) ==> Lists(r, t')) && (Counts(t) ==> Counts(t'))
  {
    var t' := t.(fills := fills);
    if Lists(r, t) {
      forall c: nat | c < CLASSES
        ensures Free(r, t', c)
      {
        assert Free(r, t, c);
      }
    }
    if Counts(t) {
      forall c: nat | c < CLASSES
        ensures Counted(t', c)
      {
        assert Counted(t, c);
      }
    }
  }

  lemma RoomKeeps(r: Region, t: Track, sz: nat)
    requires Inv(r, t) && sz <= 8 * CLASSES && sz % 8 == 0
    ensures var r', t' := Room(r, sz), Opened(r, t, sz);
            Inv(r', t') && Fits(r', sz) && t'.fills != []
    ensures Opened(r, t, sz).(fills := t.fills) == t
            && Room(r, sz).(blocks := r.blocks, slabs := r.slabs, bump := r.bump) == r
  {
    RoomFills(r, t, sz);
    if !Fits(r, sz) {
      var r', t' := NewSlab(r), Opened(r, t, sz);
      RoomGeometry(r, t.cells);
      RoomLive(r, t);
      BigLists(r, r', t);
      FillsAside(r', t, t'.fills);
      hide Geometry, Live, Lists, Counts, Filled;
    }
  }

  lemma RoomGeometry(r: Region, cells: map<Ptr, nat>)
    requires Frontier(r) && Geometry(r, cells)
    ensures Frontier(NewSlab(r)) && Geometry(NewSlab(r), cells)
  {
    var r' := NewSlab(r);
    forall p | p in cells
      ensures Placed(r', p, cells[p])
    {
      assert Placed(r, p, cells[p]);
    }
    forall i: nat, j: nat | i < j < |r'.slabs|
      ensures r'.slabs[i] != r'.slabs[j]
    {
      assert r'.slabs[j] == r.slabs[j - 1];
    }
  }

  lemma RoomLive(r: Region, t: Track)
    requires Live(r, t)
    ensures Live(NewSlab(r), t)
  {
    forall p | p in t.live
      ensures Holds(NewSlab(r), t.cells, p, t.live[p])
    {
      assert Holds(r, t.cells, p, t.live[p]);
    }
  }

  // One cell from the bump pointer, once there is room.

  function Bumped(r: Region, sz: nat): Region
    requires r.bump.At?
  {
    r.(bump := At(r.bump.block, r.bump.off + sz))
  }

  lemma BumpParts(r: Region, t: Track, s: Shape)
    requires Inv(r, t) && Proper(s) && Class(s) < CLASSES && r.free[Class(s)].Null? && Fits(r, CellBytes(s))
             && t.fills != []
    ensures CellBytes(s) == 8 * (Class(s) + 1) && r.bump.At? && Class(s) < |t.bumped|
    ensures var c := Class(s);
            var r', t' := Bumped(r, 8 * (c + 1)), Grown(t, r.bump, c, 8 * (c + 1));
            && Frontier(r') && Geometry(r', t'.cells) && Live(r', t') && Lists(r', t') && Filled(r', t')
            && Vacant(r', t', r.bump, s) && Spare(t', c) && r.bump !in t.live
  {
    var c := Class(s);
    ClassFixesSize(s);
    var sz := 8 * (c + 1);
    var r', t' := Bumped(r, sz), Grown(t, r.bump, c, sz);
    BumpGeometry(r, t, c);
    BumpFrontier(r, sz);
    hide Frontier, Geometry;
    BumpLive(r, r', t, t', c);
    BumpLists(r, r', t, t', c);
    BumpVacant(r, r', t, t', s);
    BumpSpare(r, t, c);
    BumpFilled(r, t, c);
    hide Live, Lists, Counts, Filled, Spare, Vacant;
  }

  lemma BumpFrontier(r: Region, sz: nat)
    requires Frontier(r) && Fits(r, sz) && sz % 8 == 0
    ensures Frontier(Bumped(r, sz))
  {
  }

  lemma BumpKeeps(r: Region, t: Track, s: Shape)
    requires Inv(r, t) && Proper(s) && Class(s) < CLASSES && r.free[Class(s)].Null? && Fits(r, CellBytes(s))
             && t.fills != []
    ensures var c := Class(s);
            var r', t' := Bumped(r, 8 * (c + 1)), Grown(t, r.bump, c, 8 * (c + 1));
            Inv(r'.(mem := Stamp(r'.mem, r.bump, s)), Given(t', r.bump, s))
    ensures r.bump !in t.live && CellBytes(s) == 8 * (Class(s) + 1)
  {
    hide *;
    BumpParts(r, t, s);
    var c := Class(s);
    GivenKeeps(Bumped(r, 8 * (c + 1)), Grown(t, r.bump, c, 8 * (c + 1)), r.bump, s);
  }

  lemma BumpGeometry(r: Region, t: Track, c: nat)
    requires Frontier(r) && Geometry(r, t.cells) && c < CLASSES && Fits(r, 8 * (c + 1))
    ensures r.bump !in t.cells
    ensures Geometry(r.(bump := At(r.bump.block, r.bump.off + 8 * (c + 1))), t.cells[r.bump := c])
  {
    var r' := r.(bump := At(r.bump.block, r.bump.off + 8 * (c + 1)));
    var cells := t.cells[r.bump := c];
    forall p | p in t.cells
      ensures Placed(r', p, t.cells[p]) && p != r.bump && Apart(p, 8 * (t.cells[p] + 1), r.bump, 8 * (c + 1))
    {
      assert Placed(r, p, t.cells[p]);
    }
    assert Placed(r', r.bump, c);
  }

  lemma BumpLive(r: Region, r': Region, t: Track, t': Track, c: nat)
    requires Live(r, t) && r.bump !in t.cells && t'.cells == t.cells[r.bump := c] && t'.live == t.live
    requires r'.mem == r.mem && r'.slabs == r.slabs && r'.blocks == r.blocks
    ensures Live(r', t')
  {
    forall p | p in t'.live
      ensures Holds(r', t'.cells, p, t'.live[p]) && Marked(r'.mem, p, t'.live[p])
    {
      assert Holds(r, t.cells, p, t.live[p]);
    }
  }

  lemma BumpLists(r: Region, r': Region, t: Track, t': Track, c: nat)
    requires Lists(r, t) && r.bump !in t.cells && t'.cells == t.cells[r.bump := c] && t'.live == t.live
    requires t'.chains == t.chains && r'.mem == r.mem && r'.free == r.free
    requires |t'.bumped| == CLASSES && |t'.peak| == CLASSES
    ensures Lists(r', t') && forall d: nat | d < CLASSES :: r.bump !in t'.chains[d]
  {
    forall d: nat | d < CLASSES
      ensures Free(r', t', d) && r.bump !in t'.chains[d]
    {
      assert Free(r, t, d);
    }
  }

  lemma BumpVacant(r: Region, r': Region, t: Track, t': Track, s: Shape)
    requires Inv(r, t) && Proper(s) && Class(s) < CLASSES && r.bump.At? && r.bump !in t.cells && Sized(t')
    requires t'.cells == t.cells[r.bump := Class(s)] && t'.live == t.live && t'.chains == t.chains
    requires forall d: nat | d < CLASSES :: r.bump !in t'.chains[d]
    ensures r.bump !in t.live && Vacant(r', t', r.bump, s)
  {
    assert r.bump in t.live ==> Holds(r, t.cells, r.bump, t.live[r.bump]);
  }

  lemma BumpSpare(r: Region, t: Track, c: nat)
    requires Inv(r, t) && c < CLASSES && r.free[c].Null? && r.bump.At? && t.fills != []
    ensures Spare(Grown(t, r.bump, c, 8 * (c + 1)), c)
  {
    PoppedChain(r, t, c);
    var t' := Grown(t, r.bump, c, 8 * (c + 1));
    forall d: nat | d < CLASSES
      ensures t'.bumped[d] == |Held(t'.live, d)| + |t'.chains[d]| + (if d == c then 1 else 0)
      ensures Max(t'.peak[d], if d == c then |Held(t'.live, d)| + 1 else 0) == t'.bumped[d]
    {
      assert Counted(t, d);
    }
  }

  lemma BumpFilled(r: Region, t: Track, c: nat)
    requires Filled(r, t) && c < |t.bumped| && r.bump.At? && t.fills != []
    ensures Filled(r.(bump := At(r.bump.block, r.bump.off + 8 * (c + 1))), Grown(t, r.bump, c, 8 * (c + 1)))
  {
    SumFirst(t.fills, 8 * (c + 1));
    WeighOne(t.bumped, c);
  }

  lemma RoomSame(r: Region, t: Track, sz: nat)
    ensures Room(r, sz).free == r.free && Room(r, sz).mem == r.mem && Opened(r, t, sz).live == t.live
    ensures Room(r, sz).bump.At?
  {
  }

  lemma SlabSource(r: Region, t: Track, s: Shape)
    requires Inv(r, t) && Class(s) < CLASSES && r.free[Class(s)].Null? && CellBytes(s) == 8 * (Class(s) + 1)
    requires Linked(r, Class(s))
    ensures var c := Class(s);
            var room, t' := Room(r, CellBytes(s)), Opened(r, t, CellBytes(s));
            && t'.fills != [] && Source(r, t, s) == Grown(t', room.bump, c, 8 * (c + 1))
            && Alloc(r, s) == Taken(Bumped(room, 8 * (c + 1)).(mem := Stamp(Bumped(room, 8 * (c + 1)).mem, room.bump,
               s)), room.bump)
  {
    RoomFills(r, t, CellBytes(s));
    RoomSame(r, t, CellBytes(s));
    hide Inv, Room, Opened, Grown, Stamp, Class, CellBytes;
  }

  lemma SlabKeeps(r: Region, t: Track, s: Shape)
    requires Inv(r, t) && Proper(s) && Class(s) < CLASSES && r.free[Class(s)].Null?
    ensures Linked(r, Class(s))
    ensures Inv(Alloc(r, s).r, AllocTrack(r, t, s)) && Alloc(r, s).p !in t.live
  {
    var sz := CellBytes(s);
    ClassFixesSize(s);
    InvLinked(r, t, Class(s));
    RoomKeeps(r, t, sz);
    RoomSame(r, t, sz);
    SlabSource(r, t, s);
    hide Inv, Given, Grown, Fits, Room, Opened, Stamp, Linked, Alloc, Source, Class, CellBytes;
    BumpKeeps(Room(r, sz), Opened(r, t, sz), s);
  }

  lemma AllocGives(r: Region, t: Track, s: Shape)
    requires Inv(r, t) && Linked(r, Class(s))
    ensures AllocTrack(r, t, s).live == t.live[Alloc(r, s).p := s]
  {
    hide Inv, Source, Alloc, Linked, Class;
  }

  /** Whatever the shape and wherever the cell comes from, the heap's invariant survives an allocation. */
  lemma AllocKeeps(r: Region, t: Track, s: Shape)
    requires Inv(r, t) && Proper(s)
    ensures Linked(r, Class(s))
    ensures Inv(Alloc(r, s).r, AllocTrack(r, t, s)) && Alloc(r, s).p !in t.live
    ensures AllocTrack(r, t, s).live == t.live[Alloc(r, s).p := s]
  {
    InvLinked(r, t, Class(s));
    hide *;
    AllocGives(r, t, s);
    if Class(s) >= CLASSES {
      BigKeeps(r, t, s);
    } else if r.free[Class(s)].At? {
      PopKeeps(r, t, s);
    } else {
      SlabKeeps(r, t, s);
    }
  }

  // ---------------------------------------------------------------- release and reuse in place

  function Without(live: map<Ptr, Shape>, p: Ptr): map<Ptr, Shape>
  {
    map q | q in live && q != p :: live[q]
  }

  function FreeTrack(t: Track, p: Ptr): Track
    requires Sized(t) && p in t.live
  {
    var c := Class(t.live[p]);
    t.(live := Without(t.live, p), chains := if c < CLASSES then t.chains[c := [p] + t.chains[c]] else t.chains)
  }

  lemma RouteIsClass(r: Region, t: Track, p: Ptr)
    requires Live(r, t) && p in t.live
    ensures p.At? && p in r.mem && r.mem[p].Header?
    ensures ReadsLength(r.mem[p].tag) ==> Plus(p, 8) in r.mem && r.mem[Plus(p, 8)].Length?
    ensures RouteOf(r.mem, p) == Class(t.live[p])
  {
    var s := t.live[p];
    assert Holds(r, t.cells, p, s) && Marked(r.mem, p, s);
    RouteAgrees(s, r.mem[p].rc);
    if HasLength(s) {
      assert Words(s) == [Length(s.len)] && Granule(p, 1) == Plus(p, 8);
    }
  }

  lemma LinkLive(r: Region, t: Track, p: Ptr, w: Word)
    requires Geometry(r, t.cells) && Live(r, t) && p in t.live
    ensures var r' := r.(mem := r.mem[p := w]); Live(r', t.(live := Without(t.live, p)))
  {
    var live := Without(t.live, p);
    var r' := r.(mem := r.mem[p := w]);
    forall q | q in live
      ensures Holds(r', t.cells, q, live[q]) && Marked(r'.mem, q, live[q])
    {
      assert Holds(r, t.cells, q, t.live[q]);
      WriteKeeps(r, t, p, 0, w, q);
      assert Granule(p, 0) == p;
      MarkedKept(r.mem, r'.mem, q, t.live[q]);
    }
  }

  /** A write to a live cell's header leaves every free list as it is. */
  lemma HeaderLists(r: Region, t: Track, p: Ptr, w: Word, c: nat)
    requires Geometry(r, t.cells) && Live(r, t) && Lists(r, t) && p in t.live && c < CLASSES
    ensures Chained(r.mem[p := w], r.free[c], t.chains[c])
  {
    assert Free(r, t, c);
    forall q | q in t.chains[c]
      ensures q != p
    {
      DeadApart(r, t, p, c, q);
    }
    ChainedKept(r.mem, r.mem[p := w], r.free[c], t.chains[c]);
  }

  lemma LinkLists(r: Region, t: Track, p: Ptr)
    requires Inv(r, t) && p in t.live
    ensures Lists(Release(r, p, Class(t.live[p])), FreeTrack(t, p))
  {
    var c := Class(t.live[p]);
    var r', t' := Release(r, p, c), FreeTrack(t, p);
    assert Holds(r, t.cells, p, t.live[p]);
    forall d: nat | d < CLASSES
      ensures Free(r', t', d)
    {
      assert Free(r, t, d);
      HeaderLists(r, t, p, Link(r.free[if c < CLASSES then c else 0]), d);
      if d == c {
        var chain := [p] + t.chains[c];
        assert chain[1..] == t.chains[c];
        assert forall i: nat | 0 < i < |chain| :: chain[i] == t.chains[c][i - 1] && chain[i] in t.chains[c];
      }
    }
  }

  lemma LinkCounts(t: Track, p: Ptr)
    requires Counts(t) && p in t.live
    ensures Counts(FreeTrack(t, p))
  {
    var t' := FreeTrack(t, p);
    forall d: nat | d < CLASSES
      ensures Counted(t', d)
    {
      assert Counted(t, d);
      HeldGains(t'.live, p, t.live[p], d);
      assert t'.live[p := t.live[p]] == t.live;
    }
  }

  /** Freeing a cell the client holds: its class is read off the cell itself, and the invariant survives. */
  lemma FreeKeeps(r: Region, t: Track, p: Ptr)
    requires Inv(r, t) && p in t.live
    ensures p.At? && p in r.mem && r.mem[p].Header?
    ensures ReadsLength(r.mem[p].tag) ==> Plus(p, 8) in r.mem && r.mem[Plus(p, 8)].Length?
    ensures RouteOf(r.mem, p) == Class(t.live[p])
    ensures Inv(Release(r, p, RouteOf(r.mem, p)), FreeTrack(t, p))
  {
    var c := Class(t.live[p]);
    RouteIsClass(r, t, p);
    var r', t' := Release(r, p, c), FreeTrack(t, p);
    LinkLists(r, t, p);
    LinkCounts(t, p);
    LinkLive(r, t, p, if c < CLASSES then Link(r.free[c]) else r.mem[p]);
    assert r.mem[p := r.mem[p]] == r.mem;
    GeometrySame(r, r', t.cells);
    FreeLive(r, t, p);
    assert Frontier(r') && Filled(r', t');
    hide Geometry, Live, Lists, Counts, Frontier, Filled;
  }

  lemma FreeLive(r: Region, t: Track, p: Ptr)
    requires Sized(t) && p in t.live && |r.free| == CLASSES && p in r.mem
    requires var c := Class(t.live[p]);
             var w := if c < CLASSES then Link(r.free[c]) else r.mem[p];
             Live(r.(mem := r.mem[p := w]), t.(live := Without(t.live, p)))
    ensures Live(Release(r, p, Class(t.live[p])), FreeTrack(t, p))
  {
    var c := Class(t.live[p]);
    var r', t' := Release(r, p, c), FreeTrack(t, p);
    var w := if c < CLASSES then Link(r.free[c]) else r.mem[p];
    var r0, t0 := r.(mem := r.mem[p := w]), t.(live := Without(t.live, p));
    assert r0.mem == r'.mem;
    forall q | q in t'.live
      ensures Holds(r', t'.cells, q, t'.live[q]) && Marked(r'.mem, q, t'.live[q])
    {
      assert Holds(r0, t0.cells, q, t0.live[q]) && Marked(r0.mem, q, t0.live[q]);
    }
  }

  /** A header rewritten in place: a new count, or a constructor re-stamped with the same arity. */
  predicate Restamps(old_: Shape, s: Shape)
  {
    Proper(s) && (s == old_ || (old_.Con? && s.Con? && s.arity == old_.arity))
  }

  function RestampTrack(t: Track, p: Ptr, s: Shape): Track
  {
    t.(live := t.live[p := s])
  }

  lemma RestampLive(r: Region, t: Track, p: Ptr, s: Shape, rc: nat)
    requires Geometry(r, t.cells) && Live(r, t) && p in t.live && Restamps(t.live[p], s)
    ensures Live(r.(mem := r.mem[p := Header(rc, TagOf(s), ArityByte(s))]), RestampTrack(t, p, s))
  {
    var w := Header(rc, TagOf(s), ArityByte(s));
    var r', t' := r.(mem := r.mem[p := w]), RestampTrack(t, p, s);
    assert Holds(r, t.cells, p, t.live[p]) && Marked(r.mem, p, t.live[p]);
    ClassFixesSize(t.live[p]);
    forall q | q in t'.live
      ensures Holds(r', t'.cells, q, t'.live[q]) && Marked(r'.mem, q, t'.live[q])
    {
      assert Holds(r, t.cells, q, t.live[q]);
      if q != p {
        WriteKeeps(r, t, p, 0, w, q);
        assert Granule(p, 0) == p;
        MarkedKept(r.mem, r'.mem, q, t.live[q]);
      }
    }
  }

  lemma RestampKeeps(r: Region, t: Track, p: Ptr, s: Shape, rc: nat)
    requires Inv(r, t) && p in t.live && Restamps(t.live[p], s)
    ensures Inv(r.(mem := r.mem[p := Header(rc, TagOf(s), ArityByte(s))]), RestampTrack(t, p, s))
  {
    var w := Header(rc, TagOf(s), ArityByte(s));
    var r', t' := r.(mem := r.mem[p := w]), RestampTrack(t, p, s);
    RestampLive(r, t, p, s, rc);
    GeometrySame(r, r', t.cells);
    RestampLists(r, t, p, s, w);
    assert Frontier(r') && Filled(r', t');
    hide Geometry, Live, Frontier, Filled, Lists, Counts;
  }

  lemma RestampLists(r: Region, t: Track, p: Ptr, s: Shape, w: Word)
    requires Geometry(r, t.cells) && Live(r, t) && Lists(r, t) && Counts(t) && p in t.live && Restamps(t.live[p], s)
    ensures Lists(r.(mem := r.mem[p := w]), RestampTrack(t, p, s)) && Counts(RestampTrack(t, p, s))
  {
    var r', t' := r.(mem := r.mem[p := w]), RestampTrack(t, p, s);
    forall c: nat | c < CLASSES
      ensures Free(r', t', c) && Counted(t', c)
    {
      assert Free(r, t, c) && Counted(t, c);
      HeaderLists(r, t, p, w, c);
      assert Held(t'.live, c) == Held(t.live, c);
    }
    hide Geometry, Live, Free, Counted;
  }

  // ---------------------------------------------------------------- what the invariant means

  lemma EmptyHeap()
    ensures Inv(EMPTY, NOTHING)
  {
    forall c: nat | c < CLASSES
      ensures Free(EMPTY, NOTHING, c) && Counted(NOTHING, c)
    {
      assert Held(map[], c) == {};
    }
    WeighZeros(CLASSES);
    assert NOTHING.bumped == seq(CLASSES, _ => 0);
  }

  lemma {:induction false} WeighZeros(n: nat)
    ensures Weigh(seq(n, _ => 0)) == 0
  {
    if n > 0 {
      WeighZeros(n - 1);
      assert seq(n, _ => 0)[..n - 1] == seq(n - 1, _ => 0);
    }
  }

  /** No two live cells, no live and dead cell, share a byte; dead cells of one list are exactly its size. */
  lemma HeapSeparation(r: Region, t: Track, p: Ptr)
    requires Inv(r, t) && p in t.live
    ensures p.At?
    ensures forall q | q in t.live && q != p :: q.At? && Apart(p, CellBytes(t.live[p]), q, CellBytes(t.live[q]))
    ensures forall c: nat, q | c < CLASSES && q in t.chains[c] ::
              q.At? && Apart(p, CellBytes(t.live[p]), q, 8 * (c + 1))
    ensures r.bump.At? ==> Apart(p, CellBytes(t.live[p]), r.bump, SLAB - r.bump.off)
  {
    forall q | q in t.live && q != p
      ensures q.At? && Apart(p, CellBytes(t.live[p]), q, CellBytes(t.live[q]))
    {
      LiveApart(r, t, p, q);
    }
    forall c: nat, q | c < CLASSES && q in t.chains[c]
      ensures q.At? && Apart(p, CellBytes(t.live[p]), q, 8 * (c + 1))
    {
      DeadApart(r, t, p, c, q);
    }
    ClassFixesSize(t.live[p]);
    assert Holds(r, t.cells, p, t.live[p]);
    assert Class(t.live[p]) < CLASSES ==> Placed(r, p, t.cells[p]);
    hide Geometry, Live, Lists, Counts, Filled, Class, CellBytes;
  }

  /**
    The same of what the client may store: no byte of the fields, slots or text of a live cell belongs to
    another live cell, to a free cell or to the unbumped tail.
   */
  lemma ContentsApart(r: Region, t: Track, p: Ptr)
    requires Inv(r, t) && p in t.live
    ensures p.At?
    ensures forall q | q in t.live && q != p :: q.At? && Apart(p, Contents(t.live[p]), q, Contents(t.live[q]))
    ensures forall c: nat, q | c < CLASSES && q in t.chains[c] :: q.At? && Apart(p, Contents(t.live[p]), q, 8 * (c + 1))
    ensures r.bump.At? ==> Apart(p, Contents(t.live[p]), r.bump, SLAB - r.bump.off)
  {
    HeapSeparation(r, t, p);
    hide Inv, CellBytes, Contents;
    HasRoom(t.live[p]);
    forall q | q in t.live && q != p
      ensures q.At? && Apart(p, Contents(t.live[p]), q, Contents(t.live[q]))
    {
      HasRoom(t.live[q]);
    }
    forall c: nat, q | c < CLASSES && q in t.chains[c]
      ensures q.At? && Apart(p, Contents(t.live[p]), q, 8 * (c + 1))
    {
      assert Apart(p, CellBytes(t.live[p]), q, 8 * (c + 1));
    }
  }

  lemma AllocStamps(r: Region, s: Shape)
    requires Linked(r, Class(s))
    ensures Alloc(r, s).r.mem == Stamp(r.mem, Alloc(r, s).p, s)
  {
    hide Class, CellBytes, Stamp;
  }

  /** An allocation leaves every word of every cell already held, and marks the new one. */
  lemma AllocOthers(r: Region, t: Track, s: Shape)
    requires Inv(r, t) && Proper(s) && Linked(r, Class(s))
    ensures var b := Alloc(r, s);
            && Marked(b.r.mem, b.p, s) && b.r.mem[b.p].rc == 1
            && forall q | q in t.live :: CellKept(r.mem, b.r.mem, q, CellBytes(t.live[q]))
  {
    hide *;
    var b := Alloc(r, s);
    AllocKeeps(r, t, s);
    AllocStamps(r, s);
    StampMarks(r.mem, b.p, s);
    forall q | q in t.live
      ensures CellKept(r.mem, b.r.mem, q, CellBytes(t.live[q]))
    {
      HeapSeparation(b.r, AllocTrack(r, t, s), b.p);
      StampKeeps(r.mem, b.p, s, q, CellBytes(t.live[q]));
    }
  }

  /** A free leaves every word of every other cell held. */
  lemma FreeOthers(r: Region, t: Track, p: Ptr, q: Ptr)
    requires Inv(r, t) && p in t.live && q in t.live && p != q
    ensures CellKept(r.mem, Release(r, p, Class(t.live[p])).mem, q, CellBytes(t.live[q]))
  {
    var c := Class(t.live[p]);
    WriteKeeps(r, t, p, 0, Link(r.free[if c < CLASSES then c else 0]), q);
    assert Granule(p, 0) == p;
    hide Geometry, Live, Lists, Counts, Filled, Class;
  }

  /** Dead cells lie apart from each other and from the unbumped tail, whatever their lists. */
  lemma FreeListsApart(r: Region, t: Track, c: nat, i: nat, d: nat, j: nat)
    requires Inv(r, t) && c < CLASSES && i < |t.chains[c]| && d < CLASSES && j < |t.chains[d]| && (c != d || i != j)
    ensures var p, q := t.chains[c][i], t.chains[d][j];
            && p.At? && q.At? && Apart(p, 8 * (c + 1), q, 8 * (d + 1))
            && (r.bump.At? ==> Apart(p, 8 * (c + 1), r.bump, SLAB - r.bump.off))
  {
    var p, q := t.chains[c][i], t.chains[d][j];
    assert Free(r, t, c) && Free(r, t, d);
    assert p in t.chains[c] && q in t.chains[d];
    assert Placed(r, p, t.cells[p]) && Placed(r, q, t.cells[q]);
    if c == d {
      assert if i < j then t.chains[c][i] != t.chains[c][j] else t.chains[c][j] != t.chains[c][i];
    }
  }

  lemma {:induction false} SumAtLeast(xs: seq<nat>, m: nat)
    requires forall i: nat | 0 < i < |xs| :: xs[i] >= m
    ensures |xs| > 0 ==> Sum(xs) >= m * (|xs| - 1)
    decreases |xs|
  {
    if |xs| > 1 {
      SumAtLeast(xs[..|xs| - 1], m);
    }
  }

  /**
    Physical memory, exactly: no class was ever bumped beyond its high-water mark of live cells, and
    every slab but the newest is used to within 512 bytes.
   */
  lemma PhysicalBound(r: Region, t: Track)
    requires Inv(r, t)
    ensures forall c: nat | c < CLASSES :: t.bumped[c] == t.peak[c] && |Held(t.live, c)| <= t.peak[c]
    ensures r.slabs != [] ==> 65024 * (|r.slabs| - 1) <= Weigh(t.peak)
  {
    forall c: nat | c < CLASSES
      ensures t.bumped[c] == t.peak[c] && |Held(t.live, c)| <= t.peak[c]
    {
      assert Counted(t, c);
    }
    assert t.bumped == t.peak;
    SumAtLeast(t.fills, 65024);
    hide Geometry, Live, Lists, Counts;
  }
}
