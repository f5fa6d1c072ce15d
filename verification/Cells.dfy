/**
  Heap cells of the reference-counting runtime (runtime/wok_rc.c:18-106): addresses, the seven
  shapes a counted cell can take, and the size classes they share.
*/
module Cells {

  const GRANULE: nat := 8
  const SLAB: nat := 65536
  const CLASSES: nat := 64

  const ARRAY_TAG: nat := 0xFFFF
  const STRING_TAG: nat := 0xFFFE
  const VIEW_TAG: nat := 0xFFFD
  const BYTES_TAG: nat := 0xFFFC
  const FOREIGN_TAG: nat := 0xFFFB
  const BORROW_TAG: nat := 0xFFFA

  const SIZE_MAX: nat := 0xFFFF_FFFF_FFFF_FFFF

  /** A byte address: a block obtained from malloc and an offset into it. */
  datatype Ptr = Null | At(block: nat, off: nat)

  function Plus(p: Ptr, n: nat): Ptr
    requires p.At?
  {
    At(p.block, p.off + n)
  }

  /** One granule of memory: a cell's header, a free-list link, a stored length, a pointer, or payload. */
  datatype Word =
    | Header(rc: nat, tag: nat, arity: nat)
    | Link(next: Ptr)
    | Length(len: nat)
    | Address(to: Ptr)
    | Payload(w: int)

  datatype Shape =
    | Con(tag: nat, arity: nat)
    | Array(len: nat, elemkind: nat)
    | Str(len: nat)
    | Bytes(len: nat)
    | View(parent: Ptr, start: nat, len: nat)
    | Foreign(data: nat, len: nat)
    | Borrow(data: nat, len: nat)

  /** What the allocators demand: constructor tags stay below the reserved ones, bytes are bytes. */
  predicate Proper(s: Shape)
  {
    match s
    case Con(tag, arity) => tag < BORROW_TAG && arity < 256
    case Array(_, elemkind) => elemkind < 256
    case _ => true
  }

  function ConBytes(arity: nat): nat
  {
    8 + 8 * arity
  }

  function ArrayBytes(len: nat): nat
  {
    16 + 8 * len
  }

  function StringBytes(len: nat): nat
  {
    16 + 8 * ((len + 7) / 8)
  }

  function ArrayClass(len: nat): nat
  {
    if len < CLASSES - 1 then len + 1 else CLASSES
  }

  function StringClass(len: nat): nat
  {
    if (len + 7) / 8 < CLASSES - 1 then (len + 7) / 8 + 1 else CLASSES
  }

  function CellBytes(s: Shape): (n: nat)
    ensures n >= 8
  {
    match s
    case Con(_, arity) => ConBytes(arity)
    case Array(len, _) => ArrayBytes(len)
    case Str(len) => StringBytes(len)
    case Bytes(len) => StringBytes(len)
    case View(_, _, _) => 32
    case Foreign(_, _) => 24
    case Borrow(_, _) => 24
  }

  function Class(s: Shape): nat
  {
    match s
    case Con(_, arity) => arity
    case Array(len, _) => ArrayClass(len)
    case Str(len) => StringClass(len)
    case Bytes(len) => StringClass(len)
    case View(_, _, _) => 3
    case Foreign(_, _) => 2
    case Borrow(_, _) => 2
  }

  function TagOf(s: Shape): nat
  {
    match s
    case Con(tag, _) => tag
    case Array(_, _) => ARRAY_TAG
    case Str(_) => STRING_TAG
    case Bytes(_) => BYTES_TAG
    case View(_, _, _) => VIEW_TAG
    case Foreign(_, _) => FOREIGN_TAG
    case Borrow(_, _) => BORROW_TAG
  }

  function ArityByte(s: Shape): nat
  {
    match s
    case Con(_, arity) => arity
    case Array(_, elemkind) => elemkind
    case _ => 0
  }

  /** The words an allocator writes behind the header. */
  function Words(s: Shape): (w: seq<Word>)
    ensures 8 * (|w| + 1) <= CellBytes(s)
  {
    match s
    case Con(_, _) => []
    case Array(len, _) => [Length(len)]
    case Str(len) => [Length(len)]
    case Bytes(len) => [Length(len)]
    case View(parent, start, len) => [Address(parent), Payload(start), Payload(len)]
    case Foreign(data, len) => [Payload(data), Payload(len)]
    case Borrow(data, len) => [Payload(data), Payload(len)]
  }

  predicate HasLength(s: Shape)
  {
    s.Array? || s.Str? || s.Bytes?
  }

  /** The class decides the slab or malloc path, and within a slab it fixes the size: shapes share classes safely. */
  lemma ClassFixesSize(s: Shape)
    requires Proper(s)
    ensures Class(s) < CLASSES <==> CellBytes(s) <= 8 * CLASSES
    ensures Class(s) < CLASSES ==> CellBytes(s) == 8 * (Class(s) + 1)
    ensures HasLength(s) ==> CellBytes(s) >= 16
  {
  }

  /** The bytes a client may use of a cell, header included. */
  function Contents(s: Shape): nat
  {
    match s
    case Con(_, arity) => 8 + 8 * arity
    case Array(len, _) => 16 + 8 * len
    case Str(len) => 16 + len
    case Bytes(len) => 16 + len
    case View(_, _, _) => 32
    case Foreign(_, _) => 24
    case Borrow(_, _) => 24
  }

  /** A cell has room for what its client stores in it, and wastes less than a granule. */
  lemma HasRoom(s: Shape)
    ensures s.Con? ==> CellBytes(s) == 8 + 8 * s.arity
    ensures s.Array? ==> CellBytes(s) == 16 + 8 * s.len
    ensures s.Str? || s.Bytes? ==> 16 + s.len <= CellBytes(s) < 24 + s.len
    ensures s.View? ==> CellBytes(s) == 32
    ensures s.Foreign? || s.Borrow? ==> CellBytes(s) == 24
    ensures CellBytes(s) % 8 == 0 && Contents(s) <= CellBytes(s) < Contents(s) + 8
  {
  }

  /** The tag in a header tells the shapes apart. */
  lemma TagsTell(a: Shape, b: Shape)
    requires Proper(a) && Proper(b) && TagOf(a) == TagOf(b)
    ensures a.Con? <==> b.Con?
    ensures a.Array? <==> b.Array?
    ensures (a.Str? <==> b.Str?) && (a.Bytes? <==> b.Bytes?)
    ensures (a.View? <==> b.View?) && (a.Foreign? <==> b.Foreign?) && (a.Borrow? <==> b.Borrow?)
    ensures !a.Con? ==> TagOf(a) == if a.Array? then 0xFFFF else if a.Str? then 0xFFFE else if a.View? then 0xFFFD
                                    else if a.Bytes? then 0xFFFC else if a.Foreign? then 0xFFFB else 0xFFFA
  {
  }

  /** The size class wok_free works out from what the cell itself holds. */
  function Route(header: Word, length: nat): nat
    requires header.Header?
  {
    if header.tag == ARRAY_TAG then ArrayClass(length)
    else if header.tag == STRING_TAG || header.tag == BYTES_TAG then StringClass(length)
    else if header.tag == VIEW_TAG then 3
    else if header.tag == FOREIGN_TAG || header.tag == BORROW_TAG then 2
    else header.arity
  }

  predicate ReadsLength(tag: nat)
  {
    tag == ARRAY_TAG || tag == STRING_TAG || tag == BYTES_TAG
  }

  /** Freeing routes a cell to the class it was allocated from, whatever its shape. */
  lemma RouteAgrees(s: Shape, rc: nat)
    requires Proper(s)
    ensures Route(Header(rc, TagOf(s), ArityByte(s)), if HasLength(s) then s.len else 0) == Class(s)
    ensures ReadsLength(TagOf(s)) <==> HasLength(s)
  {
  }

  /** Two byte ranges that share no byte. */
  predicate Apart(p: Ptr, m: nat, q: Ptr, n: nat)
    requires p.At? && q.At?
  {
    p.block != q.block || p.off + m <= q.off || q.off + n <= p.off
  }

  // ---------------------------------------------------------------- memory, granule by granule

  function Granule(p: Ptr, k: nat): Ptr
    requires p.At?
  {
    Plus(p, 8 * k)
  }

  ghost predicate SameWord(mem: map<Ptr, Word>, mem': map<Ptr, Word>, a: Ptr)
  {
    (a in mem <==> a in mem') && (a in mem ==> mem[a] == mem'[a])
  }

  /** The `n` bytes from `q` on hold what they held. */
  ghost predicate CellKept(mem: map<Ptr, Word>, mem': map<Ptr, Word>, q: Ptr, n: nat)
  {
    q.At? && SameWord(mem, mem', q) && forall k: nat | 8 * k < n :: SameWord(mem, mem', Granule(q, k))
  }

  function Put(mem: map<Ptr, Word>, at: Ptr, ws: seq<Word>): map<Ptr, Word>
    requires at.At?
    decreases |ws|
  {
    if ws == [] then mem else Put(mem[at := ws[0]], Plus(at, 8), ws[1..])
  }

  lemma {:induction false} PutKeeps(mem: map<Ptr, Word>, at: Ptr, ws: seq<Word>, a: Ptr)
    requires at.At? && forall k: nat | k < |ws| :: a != Granule(at, k)
    ensures SameWord(mem, Put(mem, at, ws), a)
    decreases |ws|
  {
    if ws != [] {
      assert a != Granule(at, 0);
      forall k: nat | k < |ws[1..]|
        ensures a != Granule(Plus(at, 8), k)
      {
        assert a != Granule(at, k + 1);
      }
      PutKeeps(mem[at := ws[0]], Plus(at, 8), ws[1..], a);
    }
  }

  lemma {:induction false} PutHolds(mem: map<Ptr, Word>, at: Ptr, ws: seq<Word>, k: nat)
    requires at.At? && k < |ws|
    ensures var mem' := Put(mem, at, ws); Granule(at, k) in mem' && mem'[Granule(at, k)] == ws[k]
    decreases |ws|
  {
    if k == 0 {
      PutKeeps(mem[at := ws[0]], Plus(at, 8), ws[1..], at);
    } else {
      PutHolds(mem[at := ws[0]], Plus(at, 8), ws[1..], k - 1);
      assert Granule(Plus(at, 8), k - 1) == Granule(at, k);
    }
  }

  /** A write outside a cell leaves it as it is. */
  lemma OutsideKeeps(mem: map<Ptr, Word>, p: Ptr, m: nat, k: nat, w: Word, q: Ptr, n: nat)
    requires p.At? && q.At? && Apart(p, m, q, n) && 8 * k < m && n > 0
    ensures CellKept(mem, mem[Granule(p, k) := w], q, n)
  {
  }
}
