/**
  The walk of comment attachment (grammar/c/wok_trivia.c:60-258, 335-382): an Euler tour over the
  tree that numbers the places where the printer can write a comment, before an item, after it,
  and at the end of a block.
*/
module Trivia {
  import opened Tokens

  // ---------------------------------------------------------------- the tree

  /** What tag_layout and scope_is_closable say of a node's tag. */
  datatype Tag = Tag(block: bool, closable: bool)

  /** `Items` is the slot the printer writes as an indented block; `open` slots are entered without brackets. */
  datatype Field =
    | Leaf
    | One(open: bool, child: Node)
    | Many(open: bool, children: List<Node>)
    | Items(open: bool, children: List<Node>)

  datatype Node = Node(id: nat, tag: Tag, off: nat, len: nat, fields: List<Field>)

  /** An item may take a trailing comment only if no block of its own needs the same slot. */
  predicate TakesTrail(t: Tag)
  {
    !t.block || !t.closable
  }

  const MAX_DEPTH: nat := 512

  function Ids(n: Node): set<nat>
    decreases n, 1
  {
    {n.id} + IdsOfFields(n.fields)
  }

  function IdsOfFields(fields: List<Field>): set<nat>
    decreases fields, 0
  {
    match fields
    case Nil => {}
    case Cons(f, more) => IdsOfField(f) + IdsOfFields(more)
  }

  function IdsOfField(f: Field): set<nat>
    decreases f, 2
  {
    match f
    case Leaf => {}
    case One(_, n) => Ids(n)
    case Many(_, ns) => IdsOfAll(ns)
    case Items(_, ns) => IdsOfAll(ns)
  }

  function IdsOfAll(ns: List<Node>): set<nat>
    decreases ns, 0
  {
    match ns
    case Nil => {}
    case Cons(n, more) => Ids(n) + IdsOfAll(more)
  }

  /** A tree: every node occurs once, and only a tag with a block slot has a block, one at most. */
  predicate Sound(n: Node)
    decreases n, 1
  {
    n.id !in IdsOfFields(n.fields) && SoundFields(n.fields, n.tag.block)
  }

  predicate SoundFields(fields: List<Field>, block: bool)
    decreases fields, 0
  {
    match fields
    case Nil => true
    case Cons(f, more) =>
      && IdsOfField(f) !! IdsOfFields(more) && SoundField(f) && (f.Items? ==> block)
      && SoundFields(more, block && !f.Items?)
  }

  predicate SoundField(f: Field)
    decreases f, 2
  {
    match f
    case Leaf => true
    case One(_, n) => Sound(n)
    case Many(_, ns) => SoundAll(ns)
    case Items(_, ns) => SoundAll(ns)
  }

  predicate SoundAll(ns: List<Node>)
    decreases ns, 0
  {
    match ns
    case Nil => true
    case Cons(n, more) => Ids(n) !! IdsOfAll(more) && Sound(n) && SoundAll(more)
  }

  // ---------------------------------------------------------------- items, scopes and the tour

  datatype Item = Item(node: nat, tag: Tag, off: nat, len: nat, scope: nat, enter: nat, exit: nat, line: nat,
                       endLine: nat, col: nat, flat: bool)

  datatype Scope = Scope(owner: nat, parent: Option<nat>, itemCol: nat, close: nat, flat: bool, closable: bool)

  datatype Event = Enter(item: nat) | Exit(item: nat) | Close(scope: nat)

  /** Where the lines of a text start. */
  function LineStarts(src: string): (starts: seq<nat>)
    ensures |starts| > 0 && starts[0] == 0
  {
    if src == [] then [0]
    else LineStarts(src[..|src| - 1]) + if src[|src| - 1] == '\n' then [|src|] else []
  }

  /** A line starts at the beginning, and behind every line end. */
  predicate IsStart(src: string, x: nat)
  {
    x == 0 || (x <= |src| && src[x - 1] == '\n')
  }

  /** These places and no others, in order. */
  lemma {:induction false} StartsAre(src: string)
    ensures var starts := LineStarts(src);
            && (forall i: nat, j: nat | i < j < |starts| :: starts[i] < starts[j])
            && forall x: nat :: x in starts <==> IsStart(src, x)
  {
    if src != [] {
      var front := src[..|src| - 1];
      var fewer := LineStarts(front);
      StartsAre(front);
      assert forall i: nat | i < |fewer| :: fewer[i] in fewer && IsStart(front, fewer[i]);
      forall x: nat
        ensures x in LineStarts(src) <==> IsStart(src, x)
      {
        assert x in fewer <==> IsStart(front, x);
      }
    }
  }

  method BuildLines(src: string) returns (starts: seq<nat>)
    ensures starts == LineStarts(src)
  {
    starts := [0];
    var i := 0;
    while i < |src|
      invariant 0 <= i <= |src| && starts == LineStarts(src[..i])
    {
      assert src[..i + 1][..i] == src[..i];
      if src[i] == '\n' {
        starts := starts + [i + 1];
      }
      i := i + 1;
    }
    assert src[..|src|] == src;
  }

  predicate IsBlank(c: char)
  {
    c == ' ' || c == '\t' || c == '\r'
  }

  /** Nothing but blanks between the start of its line and the byte. */
  predicate StartsItsLine(src: string, starts: seq<nat>, off: nat)
    requires off <= |src|
  {
    forall i: nat | LineStart(starts, off) <= i < off :: IsBlank(src[i])
  }

  function LineStart(starts: seq<nat>, off: nat): nat
  {
    var l := LineOf(starts, off);
    if l < |starts| then starts[l] else 0
  }

  method ScanToStart(src: string, starts: seq<nat>, off: nat) returns (yes: bool)
    requires off <= |src|
    ensures yes == StartsItsLine(src, starts, off)
  {
    hide LineStart;
    var i := LineStart(starts, off);
    while i < off
      invariant forall j: nat | LineStart(starts, off) <= j < i && j < off :: IsBlank(src[j])
    {
      if !IsBlank(src[i]) {
        return false;
      }
      i := i + 1;
    }
    yes := true;
  }

  /** The last line that starts at or before a byte. */
  function LineOf(starts: seq<nat>, off: nat): nat
  {
    if |starts| == 0 then 0
    else if |starts| == 1 || starts[|starts| - 1] <= off then |starts| - 1
    else LineOf(starts[..|starts| - 1], off)
  }

  lemma {:induction false} LineIs(starts: seq<nat>, off: nat, l: nat)
    requires l < |starts| && (l > 0 ==> starts[l] <= off)
    requires forall k: nat | l < k < |starts| :: off < starts[k]
    ensures LineOf(starts, off) == l
    decreases |starts|
  {
    if l < |starts| - 1 {
      LineIs(starts[..|starts| - 1], off, l);
    }
  }

  lemma {:induction false} LineOfIs(starts: seq<nat>, off: nat)
    requires |starts| > 0 && starts[0] <= off
    requires forall i: nat, j: nat | i < j < |starts| :: starts[i] < starts[j]
    ensures var l := LineOf(starts, off);
            l < |starts| && starts[l] <= off && forall k: nat | l < k < |starts| :: off < starts[k]
    decreases |starts|
  {
    if |starts| > 1 && starts[|starts| - 1] > off {
      LineOfIs(starts[..|starts| - 1], off);
    }
  }

  /** The source's binary search, over line starts in order. */
  method FindLine(starts: seq<nat>, off: nat) returns (l: nat)
    requires |starts| > 0 && forall i: nat, j: nat | i < j < |starts| :: starts[i] < starts[j]
    ensures l == LineOf(starts, off)
  {
    var lo, hi := 0, |starts| - 1;
    while lo < hi
      invariant 0 <= lo <= hi < |starts| && (lo > 0 ==> starts[lo] <= off)
      invariant forall k: nat | hi < k < |starts| :: off < starts[k]
    {
      var mid := lo + (hi - lo + 1) / 2;
      if starts[mid] <= off {
        lo := mid;
      } else {
        hi := mid - 1;
      }
    }
    LineIs(starts, off, lo);
    l := lo;
  }

  function ColOf(starts: seq<nat>, off: nat): nat
  {
    var l := LineOf(starts, off);
    if l < |starts| && starts[l] <= off then off - starts[l] + 1 else 1
  }

  /** The last byte of a span; an empty one counts as its first. */
  function LastOf(off: nat, len: nat): nat
  {
    if len != 0 then off + len - 1 else off
  }

  function NewItem(starts: seq<nat>, n: Node, scope: nat, flat: bool, enter: nat): Item
  {
    Item(n.id, n.tag, n.off, n.len, scope, enter, 0, LineOf(starts, n.off), LineOf(starts, LastOf(n.off, n.len)),
         ColOf(starts, n.off), flat)
  }

  // ---------------------------------------------------------------- where the printer writes comments

  /**
    The printer comes to an item's leading slot, its trailing slot, or a block's closing slot. `block` and
    `outer` are the owners of the block the item stands in and of the one around the block.
   */
  datatype Place =
    | Lead(node: nat, off: nat, len: nat, block: nat, flat: bool)
    | Trail(node: nat, tag: Tag, flat: bool)
    | End(node: nat, closable: bool, flat: bool, itemCol: nat, outer: Option<nat>)

  /** The places in the order the printer comes to them, fields in print order. */
  function Places(starts: seq<nat>, n: Node, block: Option<nat>, flat: bool, depth: nat): seq<Place>
    decreases n, 1
  {
    if depth >= MAX_DEPTH then [] else PlacesOfFields(starts, n, n.fields, block, flat, depth)
  }

  function PlacesOfFields(starts: seq<nat>, n: Node, fields: List<Field>, block: Option<nat>, flat: bool,
                          depth: nat): seq<Place>
    decreases fields, 0
  {
    match fields
    case Nil => []
    case Cons(f, more) =>
      PlacesOfField(starts, n, f, block, flat, depth) + PlacesOfFields(starts, n, more, block, flat, depth)
  }

  function PlacesOfField(starts: seq<nat>, n: Node, f: Field, block: Option<nat>, flat: bool, depth: nat): seq<Place>
    decreases f, 3
  {
    match f
    case Leaf => []
    case One(open, child) => Places(starts, child, block, flat || !open, depth + 1)
    case Many(open, ns) => PlacesOfAll(starts, ns, block, flat || !open, depth + 1)
    case Items(open, ns) => PlacesOfBlock(starts, n, ns, block, flat || !open, depth)
  }

  function PlacesOfAll(starts: seq<nat>, ns: List<Node>, block: Option<nat>, flat: bool, depth: nat): seq<Place>
    decreases ns, 2
  {
    match ns
    case Nil => []
    case Cons(n, more) => Places(starts, n, block, flat, depth) + PlacesOfAll(starts, more, block, flat, depth)
  }

  /** The column of a block is that of its first item, or of its owner if it has none. */
  function BlockCol(starts: seq<nat>, owner: Node, ns: List<Node>): nat
  {
    ColOf(starts, if ns.Cons? then ns.head.off else owner.off)
  }

  function PlacesOfBlock(starts: seq<nat>, owner: Node, ns: List<Node>, outer: Option<nat>, flat: bool,
                         depth: nat): seq<Place>
    decreases ns, 3
  {
    PlacesOfItems(starts, ns, owner.id, flat, depth)
      + [End(owner.id, owner.tag.closable, flat, BlockCol(starts, owner, ns), outer)]
  }

  function PlacesOfItems(starts: seq<nat>, ns: List<Node>, block: nat, flat: bool, depth: nat): seq<Place>
    decreases ns, 2
  {
    match ns
    case Nil => []
    case Cons(n, more) => PlacesOfItem(starts, n, block, flat, depth) + PlacesOfItems(starts, more, block, flat, depth)
  }

  function PlacesOfItem(starts: seq<nat>, n: Node, block: nat, flat: bool, depth: nat): seq<Place>
    decreases n, 2
  {
    [Lead(n.id, n.off, n.len, block, flat)] + Places(starts, n, Some(block), flat, depth + 1)
      + [Trail(n.id, n.tag, flat)]
  }

  function FileNode(id: nat, off: nat, len: nat, decls: List<Node>): Node
  {
    Node(id, Tag(true, true), off, len, Cons(Items(true, decls), Nil))
  }

  function FilePlaces(starts: seq<nat>, id: nat, off: nat, len: nat, decls: List<Node>): seq<Place>
  {
    PlacesOfBlock(starts, FileNode(id, off, len, decls), decls, None, false, 0)
  }

  // ---------------------------------------------------------------- which places are flat

  /** Every slot below is entered without brackets. */
  predicate Opens(n: Node)
    decreases n, 1
  {
    OpensFields(n.fields)
  }

  predicate OpensFields(fields: List<Field>)
    decreases fields, 0
  {
    fields.Nil? || (OpensField(fields.head) && OpensFields(fields.tail))
  }

  predicate OpensField(f: Field)
    decreases f, 2
  {
    match f
    case Leaf => true
    case One(open, n) => open && Opens(n)
    case Many(open, ns) => open && OpensAll(ns)
    case Items(open, ns) => open && OpensAll(ns)
  }

  predicate OpensAll(ns: List<Node>)
    decreases ns, 0
  {
    ns.Nil? || (Opens(ns.head) && OpensAll(ns.tail))
  }

  ghost predicate Marked(places: seq<Place>, flat: bool)
  {
    forall k: nat | k < |places| :: places[k].flat == flat
  }

  /** Under a bracketed slot every place is flat, at any depth; under open slots alone none is. */
  lemma {:induction false} FlatBelow(starts: seq<nat>, n: Node, block: Option<nat>, flat: bool, depth: nat)
    requires flat || Opens(n)
    ensures Marked(Places(starts, n, block, flat, depth), flat)
    decreases n, 1
  {
    if depth < MAX_DEPTH {
      FlatFields(starts, n, n.fields, block, flat, depth);
    }
  }

  lemma {:induction false} FlatFields(starts: seq<nat>, n: Node, fields: List<Field>, block: Option<nat>, flat: bool,
                                      depth: nat)
    requires flat || OpensFields(fields)
    ensures Marked(PlacesOfFields(starts, n, fields, block, flat, depth), flat)
    decreases fields, 0
  {
    if fields.Cons? {
      FlatField(starts, n, fields.head, block, flat, depth);
      FlatFields(starts, n, fields.tail, block, flat, depth);
    }
  }

  /** A slot entered in brackets makes everything in it flat, whatever is around. */
  lemma {:induction false} FlatField(starts: seq<nat>, n: Node, f: Field, block: Option<nat>, flat: bool, depth: nat)
    ensures flat || OpensField(f) ==> Marked(PlacesOfField(starts, n, f, block, flat, depth), flat)
    ensures !f.Leaf? && !f.open ==> Marked(PlacesOfField(starts, n, f, block, flat, depth), true)
    decreases f, 3
  {
    if !f.Leaf? && (flat || !f.open || OpensField(f)) {
      var inner := flat || !f.open;
      if f.One? {
        FlatBelow(starts, f.child, block, inner, depth + 1);
      } else if f.Many? {
        FlatAll(starts, f.children, block, inner, depth + 1);
      } else {
        FlatItems(starts, f.children, n.id, inner, depth);
      }
    }
  }

  lemma {:induction false} FlatAll(starts: seq<nat>, ns: List<Node>, block: Option<nat>, flat: bool, depth: nat)
    requires flat || OpensAll(ns)
    ensures Marked(PlacesOfAll(starts, ns, block, flat, depth), flat)
    decreases ns, 2
  {
    if ns.Cons? {
      FlatBelow(starts, ns.head, block, flat, depth);
      FlatAll(starts, ns.tail, block, flat, depth);
    }
  }

  lemma {:induction false} FlatItems(starts: seq<nat>, ns: List<Node>, block: nat, flat: bool, depth: nat)
    requires flat || OpensAll(ns)
    ensures Marked(PlacesOfItems(starts, ns, block, flat, depth), flat)
    decreases ns, 2
  {
    if ns.Cons? {
      FlatBelow(starts, ns.head, Some(block), flat, depth + 1);
      FlatItems(starts, ns.tail, block, flat, depth);
    }
  }

  // ---------------------------------------------------------------- how the places nest

  /** The block of the innermost item still open. */
  function Around(open: List<nat>, base: Option<nat>): Option<nat>
  {
    if open.Nil? then base else Some(open.head)
  }

  /**
    Items open and close in pairs, and a block that ends stands in the block of the innermost item open around
    it. `open` lists the blocks of the items open, innermost first.
   */
  predicate Nested(open: List<nat>, base: Option<nat>, places: seq<Place>)
    decreases |places|
  {
    if places == [] then open.Nil?
    else
      match places[0]
      case Lead(_, _, _, block, _) => Nested(Cons(block, open), base, places[1..])
      case Trail(_, _, _) => open.Cons? && Nested(open.tail, base, places[1..])
      case End(_, _, _, _, outer) => outer == Around(open, base) && Nested(open, base, places[1..])
  }

  /** These places leave the items open as they were. */
  ghost predicate Neutral(open: List<nat>, base: Option<nat>, part: seq<Place>)
  {
    forall more: seq<Place> :: Nested(open, base, part + more) == Nested(open, base, more)
  }

  lemma NeutralNone(open: List<nat>, base: Option<nat>)
    ensures Neutral(open, base, [])
  {
    forall more: seq<Place>
      ensures Nested(open, base, [] + more) == Nested(open, base, more)
    {
      assert [] + more == more;
    }
  }

  lemma NeutralBoth(open: List<nat>, base: Option<nat>, a: seq<Place>, b: seq<Place>)
    requires Neutral(open, base, a) && Neutral(open, base, b)
    ensures Neutral(open, base, a + b)
  {
    forall more: seq<Place>
      ensures Nested(open, base, a + b + more) == Nested(open, base, more)
    {
      assert a + b + more == a + (b + more);
    }
  }

  lemma NeutralEnd(open: List<nat>, base: Option<nat>, p: Place)
    requires p.End? && p.outer == Around(open, base)
    ensures Neutral(open, base, [p])
  {
    forall more: seq<Place>
      ensures Nested(open, base, [p] + more) == Nested(open, base, more)
    {
      assert ([p] + more)[1..] == more;
    }
  }

  lemma NeutralItem(open: List<nat>, base: Option<nat>, lead: Place, inner: seq<Place>, trail: Place)
    requires lead.Lead? && trail.Trail? && Neutral(Cons(lead.block, open), base, inner)
    ensures Neutral(open, base, [lead] + inner + [trail])
  {
    forall more: seq<Place>
      ensures Nested(open, base, [lead] + inner + [trail] + more) == Nested(open, base, more)
    {
      var whole := [lead] + inner + [trail] + more;
      assert whole[1..] == inner + ([trail] + more);
      assert ([trail] + more)[1..] == more;
      assert Nested(Cons(lead.block, open), base, [trail] + more) == Nested(open, base, more);
    }
  }

  /** Any part of the walk is neutral. */
  lemma {:induction false} NodeNested(starts: seq<nat>, n: Node, open: List<nat>, base: Option<nat>, flat: bool,
                                      depth: nat)
    ensures Neutral(open, base, Places(starts, n, Around(open, base), flat, depth))
    decreases n, 1
  {
    hide Neutral, Around;
    if depth < MAX_DEPTH {
      FieldsNested(starts, n, n.fields, open, base, flat, depth);
    } else {
      NeutralNone(open, base);
    }
  }

  lemma {:induction false} FieldsNested(starts: seq<nat>, n: Node, fields: List<Field>, open: List<nat>,
                                        base: Option<nat>, flat: bool, depth: nat)
    ensures Neutral(open, base, PlacesOfFields(starts, n, fields, Around(open, base), flat, depth))
    decreases fields, 0
  {
    hide Neutral, Around;
    NeutralNone(open, base);
    if fields.Cons? {
      FieldNested(starts, n, fields.head, open, base, flat, depth);
      FieldsNested(starts, n, fields.tail, open, base, flat, depth);
      NeutralBoth(open, base, PlacesOfField(starts, n, fields.head, Around(open, base), flat, depth),
                  PlacesOfFields(starts, n, fields.tail, Around(open, base), flat, depth));
    }
  }

  lemma {:induction false} FieldNested(starts: seq<nat>, n: Node, f: Field, open: List<nat>, base: Option<nat>,
                                       flat: bool, depth: nat)
    ensures Neutral(open, base, PlacesOfField(starts, n, f, Around(open, base), flat, depth))
    decreases f, 3
  {
    hide Neutral, Around;
    NeutralNone(open, base);
    if f.One? {
      NodeNested(starts, f.child, open, base, flat || !f.open, depth + 1);
    } else if f.Many? {
      AllNested(starts, f.children, open, base, flat || !f.open, depth + 1);
    } else if f.Items? {
      BlockNested(starts, n, f.children, open, base, flat || !f.open, depth);
    }
  }

  lemma {:induction false} AllNested(starts: seq<nat>, ns: List<Node>, open: List<nat>, base: Option<nat>, flat: bool,
                                     depth: nat)
    ensures Neutral(open, base, PlacesOfAll(starts, ns, Around(open, base), flat, depth))
    decreases ns, 2
  {
    hide Neutral, Around;
    NeutralNone(open, base);
    if ns.Cons? {
      NodeNested(starts, ns.head, open, base, flat, depth);
      AllNested(starts, ns.tail, open, base, flat, depth);
      NeutralBoth(open, base, Places(starts, ns.head, Around(open, base), flat, depth),
                  PlacesOfAll(starts, ns.tail, Around(open, base), flat, depth));
    }
  }

  lemma {:induction false} BlockNested(starts: seq<nat>, owner: Node, ns: List<Node>, open: List<nat>,
                                       base: Option<nat>, flat: bool, depth: nat)
    ensures Neutral(open, base, PlacesOfBlock(starts, owner, ns, Around(open, base), flat, depth))
    decreases ns, 3
  {
    hide Neutral, Around;
    var end := End(owner.id, owner.tag.closable, flat, BlockCol(starts, owner, ns), Around(open, base));
    ItemsNested(starts, ns, owner.id, open, base, flat, depth);
    NeutralEnd(open, base, end);
    NeutralBoth(open, base, PlacesOfItems(starts, ns, owner.id, flat, depth), [end]);
  }

  lemma {:induction false} ItemsNested(starts: seq<nat>, ns: List<Node>, block: nat, open: List<nat>,
                                       base: Option<nat>, flat: bool, depth: nat)
    ensures Neutral(open, base, PlacesOfItems(starts, ns, block, flat, depth))
    decreases ns, 2
  {
    hide Neutral;
    NeutralNone(open, base);
    if ns.Cons? {
      var n := ns.head;
      NodeNested(starts, n, Cons(block, open), base, flat, depth + 1);
      assert Around(Cons(block, open), base) == Some(block);
      NeutralItem(open, base, Lead(n.id, n.off, n.len, block, flat), Places(starts, n, Some(block), flat, depth + 1),
                  Trail(n.id, n.tag, flat));
      ItemsNested(starts, ns.tail, block, open, base, flat, depth);
      NeutralBoth(open, base, PlacesOfItem(starts, n, block, flat, depth),
                  PlacesOfItems(starts, ns.tail, block, flat, depth));
    }
  }

  /** The places of a file nest: items pair up, and each block stands in the block of the item around it. */
  lemma FileNested(starts: seq<nat>, id: nat, off: nat, len: nat, decls: List<Node>)
    ensures Nested(Nil, None, FilePlaces(starts, id, off, len, decls))
  {
    var places := FilePlaces(starts, id, off, len, decls);
    BlockNested(starts, FileNode(id, off, len, decls), decls, Nil, None, false, 0);
    assert Around(Nil, None) == None;
    assert places + [] == places;
    assert Nested(Nil, None, []);
  }

  /** A block begins with its first item, whose column is the block's, and ends with the point after its last. */
  lemma BlockBounds(starts: seq<nat>, owner: Node, ns: List<Node>, outer: Option<nat>, flat: bool, depth: nat)
    ensures var places := PlacesOfBlock(starts, owner, ns, outer, flat, depth);
            var end := places[|places| - 1];
            && end.End? && end.node == owner.id && end.outer == outer
            && (ns.Nil? ==> |places| == 1)
            && (ns.Cons? ==> places[0].Lead? && places[0].block == owner.id && places[0].node == ns.head.id)
            && end.itemCol == ColOf(starts, if ns.Cons? then places[0].off else owner.off)
  {
    hide Places, ColOf;
    if ns.Cons? {
      var n := ns.head;
      assert PlacesOfItem(starts, n, owner.id, flat, depth)[0] == Lead(n.id, n.off, n.len, owner.id, flat);
      assert PlacesOfItems(starts, ns, owner.id, flat, depth)[0] == Lead(n.id, n.off, n.len, owner.id, flat);
    }
  }

  function OwnerOf(scopes: seq<Scope>, s: Option<nat>): Option<nat>
  {
    if s.Some? && s.value < |scopes| then Some(scopes[s.value].owner) else None
  }

  /** The place an event of the tour stands for. */
  function PlaceOf(items: seq<Item>, scopes: seq<Scope>, e: Event): Option<Place>
  {
    match e
    case Enter(i) =>
      if i < |items| && items[i].scope < |scopes| then
        Some(Lead(items[i].node, items[i].off, items[i].len, scopes[items[i].scope].owner, items[i].flat))
      else None
    case Exit(i) => if i < |items| then Some(Trail(items[i].node, items[i].tag, items[i].flat)) else None
    case Close(s) =>
      if s < |scopes| then
        Some(End(scopes[s].owner, scopes[s].closable, scopes[s].flat, scopes[s].itemCol,
          OwnerOf(scopes, scopes[s].parent)))
      else None
  }

  /** Lines and columns are those of the offsets. */
  ghost predicate Measured(starts: seq<nat>, items: seq<Item>)
  {
    forall i: nat | i < |items| :: MeasuredItem(starts, items[i])
  }

  predicate MeasuredItem(starts: seq<nat>, it: Item)
  {
    && it.line == LineOf(starts, it.off) && it.col == ColOf(starts, it.off)
    && it.endLine == LineOf(starts, LastOf(it.off, it.len))
  }

  ghost predicate Placed(items: seq<Item>, scopes: seq<Scope>, tour: seq<Event>, places: seq<Place>)
  {
    |places| == |tour| && forall k: nat | k < |tour| :: PlaceOf(items, scopes, tour[k]) == Some(places[k])
  }

  /** The same nodes, tags and flat marks in the items and scopes there were. */
  ghost predicate SamePlaces(items: seq<Item>, scopes: seq<Scope>, items': seq<Item>, scopes': seq<Scope>)
  {
    && |items| <= |items'| && |scopes| <= |scopes'|
    && (forall i: nat | i < |items| :: PlaceOf(items, scopes, Enter(i)) == PlaceOf(items', scopes', Enter(i))
                                       && PlaceOf(items, scopes, Exit(i)) == PlaceOf(items', scopes', Exit(i)))
    && (forall s: nat | s < |scopes| :: PlaceOf(items, scopes, Close(s)) == PlaceOf(items', scopes', Close(s)))
  }

  lemma PlacedOn(items: seq<Item>, scopes: seq<Scope>, items': seq<Item>, scopes': seq<Scope>, tour: seq<Event>,
                 places: seq<Place>, e: Event, p: Place)
    requires Placed(items, scopes, tour, places) && SamePlaces(items, scopes, items', scopes')
    requires PlaceOf(items', scopes', e) == Some(p)
    ensures Placed(items', scopes', tour, places) && Placed(items', scopes', tour + [e], places + [p])
  {
    forall k: nat | k < |tour|
      ensures PlaceOf(items', scopes', tour[k]) == Some(places[k])
    {
      assert PlaceOf(items, scopes, tour[k]) == Some(places[k]);
    }
  }

  /** The walk's numbering is the tour's: each entry, exit and closing at its own time. */
  ghost predicate OnTime(items: seq<Item>, scopes: seq<Scope>, e: Event, k: nat)
  {
    match e
    case Enter(i) => i < |items| && items[i].enter == k
    case Exit(i) => i < |items| && items[i].exit == k
    case Close(s) => s < |scopes| && scopes[s].close == k
  }

  ghost predicate Timed(items: seq<Item>, scopes: seq<Scope>, tour: seq<Event>, openItems: set<nat>,
                        openScopes: set<nat>)
  {
    && (forall i: nat | i < |items| :: items[i].enter < |tour| && tour[items[i].enter] == Enter(i))
    && (forall i: nat | i < |items| && i !in openItems :: items[i].exit < |tour| && tour[items[i].exit] == Exit(i))
    && (forall s: nat | s < |scopes| && s !in openScopes ::
          scopes[s].close < |tour| && tour[scopes[s].close] == Close(s))
    && (forall k: nat | k < |tour| :: OnTime(items, scopes, tour[k], k))
    && (forall k: nat | k < |tour| :: tour[k].Exit? ==> tour[k].item !in openItems)
    && (forall k: nat | k < |tour| :: tour[k].Close? ==> tour[k].scope !in openScopes)
  }

  /** Each node is an item once and an owner once at most, and it has one tag. */
  ghost predicate Recorded(items: seq<Item>, scopes: seq<Scope>)
  {
    && (forall i: nat | i < |items| :: items[i].scope < |scopes|)
    && (forall i: nat, j: nat | i < j < |items| :: items[i].node != items[j].node)
    && (forall s: nat, u: nat | s < u < |scopes| :: scopes[s].owner != scopes[u].owner)
    && (forall s: nat | s < |scopes| && scopes[s].parent.Some? :: scopes[s].parent.value < s)
    && (forall i: nat, s: nat | i < |items| && s < |scopes| :: SameTag(items[i], scopes[s]))
  }

  ghost predicate SameTag(it: Item, sc: Scope)
  {
    it.node == sc.owner ==> it.tag.block && it.tag.closable == sc.closable
  }

  /** No node of a part still to be walked has been recorded. */
  ghost predicate Unseen(items: seq<Item>, scopes: seq<Scope>, ids: set<nat>)
  {
    && (forall i: nat | i < |items| :: items[i].node !in ids)
    && (forall s: nat | s < |scopes| :: scopes[s].owner !in ids)
  }

  /** Recording goes on at the end: what was there stays, what is new has these nodes. */
  ghost predicate Extends(items: seq<Item>, scopes: seq<Scope>, items': seq<Item>, scopes': seq<Scope>, ids: set<nat>)
  {
    && items <= items' && scopes <= scopes'
    && (forall i: nat | |items| <= i < |items'| :: items'[i].node in ids)
    && (forall s: nat | |scopes| <= s < |scopes'| :: scopes'[s].owner in ids)
  }

  lemma ExtendsTwice(items: seq<Item>, scopes: seq<Scope>, items1: seq<Item>, scopes1: seq<Scope>, ids1: set<nat>,
                     items2: seq<Item>, scopes2: seq<Scope>, ids2: set<nat>)
    requires Extends(items, scopes, items1, scopes1, ids1) && Extends(items1, scopes1, items2, scopes2, ids2)
    ensures Extends(items, scopes, items2, scopes2, ids1 + ids2)
  {
  }

  lemma StillUnseen(items: seq<Item>, scopes: seq<Scope>, items1: seq<Item>, scopes1: seq<Scope>, ids1: set<nat>,
                    ids: set<nat>)
    requires Extends(items, scopes, items1, scopes1, ids1) && Unseen(items, scopes, ids) && ids1 !! ids
    ensures Unseen(items1, scopes1, ids)
  {
  }

  lemma FewerUnseen(items: seq<Item>, scopes: seq<Scope>, ids: set<nat>, fewer: set<nat>)
    requires Unseen(items, scopes, ids) && fewer <= ids
    ensures Unseen(items, scopes, fewer)
  {
  }

  lemma MoreExtends(items: seq<Item>, scopes: seq<Scope>, items1: seq<Item>, scopes1: seq<Scope>, ids: set<nat>,
                    more: set<nat>)
    requires Extends(items, scopes, items1, scopes1, ids) && ids <= more
    ensures Extends(items, scopes, items1, scopes1, more)
  {
  }

  lemma PushTimed(items: seq<Item>, scopes: seq<Scope>, tour: seq<Event>, openItems: set<nat>, openScopes: set<nat>,
                  it: Item)
    requires Timed(items, scopes, tour, openItems, openScopes) && it.enter == |tour|
    requires forall i | i in openItems :: i < |items|
    ensures Timed(items + [it], scopes, tour + [Enter(|items|)], openItems + {|items|}, openScopes)
  {
    var items', tour' := items + [it], tour + [Enter(|items|)];
    forall k: nat | k < |tour'|
      ensures OnTime(items', scopes, tour'[k], k)
    {
      if k < |tour| {
        assert OnTime(items, scopes, tour[k], k);
      }
    }
  }

  lemma PushRecorded(items: seq<Item>, scopes: seq<Scope>, it: Item)
    requires Recorded(items, scopes) && Unseen(items, scopes, {it.node}) && it.scope < |scopes|
    ensures Recorded(items + [it], scopes)
  {
  }

  lemma LeaveItemTimed(items: seq<Item>, scopes: seq<Scope>, tour: seq<Event>, openItems: set<nat>,
                       openScopes: set<nat>, idx: nat)
    requires Timed(items, scopes, tour, openItems, openScopes) && idx in openItems && idx < |items|
    ensures Timed(items[idx := items[idx].(exit := |tour|)], scopes, tour + [Exit(idx)], openItems - {idx}, openScopes)
  {
    var items', tour' := items[idx := items[idx].(exit := |tour|)], tour + [Exit(idx)];
    forall k: nat | k < |tour'|
      ensures OnTime(items', scopes, tour'[k], k)
    {
      if k < |tour| {
        assert OnTime(items, scopes, tour[k], k);
      }
    }
  }

  lemma LeaveItemRecorded(items: seq<Item>, scopes: seq<Scope>, idx: nat, exit: nat)
    requires Recorded(items, scopes) && idx < |items|
    ensures Recorded(items[idx := items[idx].(exit := exit)], scopes)
  {
    var items' := items[idx := items[idx].(exit := exit)];
    forall i: nat, s: nat | i < |items| && s < |scopes|
      ensures SameTag(items'[i], scopes[s])
    {
      assert SameTag(items[i], scopes[s]);
    }
  }

  lemma LeaveScopeTimed(items: seq<Item>, scopes: seq<Scope>, tour: seq<Event>, openItems: set<nat>,
                        openScopes: set<nat>, s: nat)
    requires Timed(items, scopes, tour, openItems, openScopes) && s in openScopes && s < |scopes|
    ensures Timed(items, scopes[s := scopes[s].(close := |tour|)], tour + [Close(s)], openItems, openScopes - {s})
  {
    var scopes', tour' := scopes[s := scopes[s].(close := |tour|)], tour + [Close(s)];
    forall k: nat | k < |tour'|
      ensures OnTime(items, scopes', tour'[k], k)
    {
      if k < |tour| {
        assert OnTime(items, scopes, tour[k], k);
      }
    }
  }

  lemma LeaveScopeRecorded(items: seq<Item>, scopes: seq<Scope>, s: nat, close: nat)
    requires Recorded(items, scopes) && s < |scopes|
    ensures Recorded(items, scopes[s := scopes[s].(close := close)])
  {
    var scopes' := scopes[s := scopes[s].(close := close)];
    forall i: nat, u: nat | i < |items| && u < |scopes|
      ensures SameTag(items[i], scopes'[u])
    {
      assert SameTag(items[i], scopes[u]);
    }
  }

  lemma PushScopeTimed(items: seq<Item>, scopes: seq<Scope>, tour: seq<Event>, openItems: set<nat>,
                       openScopes: set<nat>, sc: Scope)
    requires Timed(items, scopes, tour, openItems, openScopes) && (forall s | s in openScopes :: s < |scopes|)
    ensures Timed(items, scopes + [sc], tour, openItems, openScopes + {|scopes|})
  {
    forall k: nat | k < |tour|
      ensures OnTime(items, scopes + [sc], tour[k], k)
    {
      assert OnTime(items, scopes, tour[k], k);
    }
  }

  lemma PushScopeRecorded(items: seq<Item>, scopes: seq<Scope>, sc: Scope)
    requires Recorded(items, scopes) && Unseen([], scopes, {sc.owner})
             && (sc.parent.Some? ==> sc.parent.value < |scopes|)
    requires forall i: nat | i < |items| :: SameTag(items[i], sc)
    ensures Recorded(items, scopes + [sc]) && SamePlaces(items, scopes, items, scopes + [sc])
  {
    var scopes' := scopes + [sc];
    forall i: nat, s: nat | i < |items| && s < |scopes'|
      ensures SameTag(items[i], scopes'[s])
    {
      if s < |scopes| {
        assert SameTag(items[i], scopes[s]);
      }
    }
  }

  /** Items are numbered in the order they are met. */
  ghost predicate InTurn(items: seq<Item>, clock: nat)
  {
    && (forall i: nat | i < |items| :: items[i].enter < clock)
    && (forall i: nat, j: nat | i < j < |items| :: items[i].enter < items[j].enter)
  }

  lemma TurnOn(items: seq<Item>, clock: nat, items': seq<Item>)
    requires InTurn(items, clock) && items <= items' && |items'| <= |items| + 1
    requires |items| < |items'| ==> items'[|items|].enter == clock
    ensures InTurn(items', clock + 1)
  {
  }

  lemma TurnKept(items: seq<Item>, clock: nat, items': seq<Item>)
    requires InTurn(items, clock) && |items'| == |items|
    requires forall i: nat | i < |items| :: items'[i].enter == items[i].enter
    ensures InTurn(items', clock + 1)
  {
  }

  // ---------------------------------------------------------------- the walk

  class Builder {
    const starts: seq<nat>
    var items: seq<Item>
    var scopes: seq<Scope>
    var clock: nat
    ghost var tour: seq<Event>
    ghost var places: seq<Place>
    ghost var openItems: set<nat>
    ghost var openScopes: set<nat>

    ghost predicate Valid()
      reads this
    {
      && clock == |tour| && Timed(items, scopes, tour, openItems, openScopes) && Recorded(items, scopes)
      && (forall i | i in openItems :: i < |items|) && (forall s | s in openScopes :: s < |scopes|)
      && Placed(items, scopes, tour, places) && Measured(starts, items) && InTurn(items, clock)
    }

    constructor (starts: seq<nat>)
      ensures Valid() && this.starts == starts && items == [] && scopes == [] && openItems == {} && openScopes == {}
      ensures tour == [] && places == []
    {
      this.starts, items, scopes, clock := starts, [], [], 0;
      tour, places, openItems, openScopes := [], [], {}, {};
    }

    method PushItem(n: Node, scope: nat, flat: bool) returns (idx: nat)
      requires Valid() && Unseen(items, scopes, {n.id}) && scope < |scopes|
      modifies this
      ensures Valid() && idx == |old(items)| && items == old(items) + [NewItem(starts, n, scope, flat, old(clock))]
      ensures scopes == old(scopes) && tour == old(tour) + [Enter(idx)]
      ensures openItems == old(openItems) + {idx} && openScopes == old(openScopes)
      ensures places == old(places) + [Lead(n.id, n.off, n.len, scopes[scope].owner, flat)]
    {
      hide Timed, Recorded, Placed, LineOf, ColOf, InTurn;
      idx := |items|;
      var it := NewItem(starts, n, scope, flat, clock);
      TurnOn(items, clock, items + [it]);
      PushTimed(items, scopes, tour, openItems, openScopes, it);
      PushRecorded(items, scopes, it);
      PlacedOn(items, scopes, items + [it], scopes, tour, places, Enter(idx),
        Lead(n.id, n.off, n.len, scopes[scope].owner, flat));
      places := places + [Lead(n.id, n.off, n.len, scopes[scope].owner, flat)];
      items := items + [it];
      clock := clock + 1;
      tour, openItems := tour + [Enter(idx)], openItems + {idx};
    }

    method LeaveItem(idx: nat)
      requires Valid() && idx in openItems
      modifies this
      ensures Valid() && idx < |old(items)| && items == old(items)[idx := old(items)[idx].(exit := old(clock))]
      ensures scopes == old(scopes) && tour == old(tour) + [Exit(idx)]
      ensures openItems == old(openItems) - {idx} && openScopes == old(openScopes)
      ensures places == old(places) + [Trail(items[idx].node, items[idx].tag, items[idx].flat)]
    {
      hide Timed, Recorded, Placed, InTurn;
      TurnKept(items, clock, items[idx := items[idx].(exit := clock)]);
      LeaveItemTimed(items, scopes, tour, openItems, openScopes, idx);
      LeaveItemRecorded(items, scopes, idx, clock);
      ghost var p := Trail(items[idx].node, items[idx].tag, items[idx].flat);
      PlacedOn(items, scopes, items[idx := items[idx].(exit := clock)], scopes, tour, places, Exit(idx), p);
      places := places + [p];
      items := items[idx := items[idx].(exit := clock)];
      clock := clock + 1;
      tour, openItems := tour + [Exit(idx)], openItems - {idx};
    }

    method PushScope(owner: Node, parent: Option<nat>, flat: bool, col: nat) returns (s: nat)
      requires Valid() && Unseen([], scopes, {owner.id}) && (parent.Some? ==> parent.value < |scopes|)
               && owner.tag.block
      requires forall i: nat | i < |items| :: items[i].node == owner.id ==> items[i].tag == owner.tag
      modifies this
      ensures Valid() && s == |old(scopes)|
      ensures scopes == old(scopes) + [Scope(owner.id, parent, col, 0, flat, owner.tag.closable)]
      ensures items == old(items) && tour == old(tour) && openItems == old(openItems)
              && openScopes == old(openScopes) + {s}
      ensures places == old(places)
    {
      hide Timed, Recorded, Placed, Measured, SamePlaces, InTurn;
      s := |scopes|;
      ghost var sc := Scope(owner.id, parent, col, 0, flat, owner.tag.closable);
      PushScopeTimed(items, scopes, tour, openItems, openScopes, sc);
      PushScopeRecorded(items, scopes, sc);
      PlacedOn(items, scopes, items, scopes + [sc], tour, places, Close(s),
               End(sc.owner, sc.closable, sc.flat, sc.itemCol, OwnerOf(scopes, sc.parent)));
      scopes := scopes + [Scope(owner.id, parent, col, 0, flat, owner.tag.closable)];
      openScopes := openScopes + {s};
    }

    method LeaveScope(s: nat)
      requires Valid() && s in openScopes
      modifies this
      ensures Valid() && s < |old(scopes)| && scopes == old(scopes)[s := old(scopes)[s].(close := old(clock))]
      ensures items == old(items) && tour == old(tour) + [Close(s)]
      ensures openItems == old(openItems) && openScopes == old(openScopes) - {s}
      ensures places ==
              old(places) + [End(scopes[s].owner, scopes[s].closable, scopes[s].flat, scopes[s].itemCol,
                OwnerOf(scopes, scopes[s].parent))]
    {
      hide Timed, Recorded, Placed, InTurn;
      TurnKept(items, clock, items);
      LeaveScopeTimed(items, scopes, tour, openItems, openScopes, s);
      LeaveScopeRecorded(items, scopes, s, clock);
      ghost var p := End(scopes[s].owner, scopes[s].closable, scopes[s].flat, scopes[s].itemCol,
        OwnerOf(scopes, scopes[s].parent));
      PlacedOn(items, scopes, items, scopes[s := scopes[s].(close := clock)], tour, places, Close(s), p);
      places := places + [p];
      scopes := scopes[s := scopes[s].(close := clock)];
      clock := clock + 1;
      tour, openScopes := tour + [Close(s)], openScopes - {s};
    }

    /** What a part of the walk leaves: the same items and scopes open, and only nodes of the part recorded. */
    twostate predicate Walked(ids: set<nat>)
      reads this
    {
      && Valid() && openItems == old(openItems) && openScopes == old(openScopes) && old(tour) <= tour
      && Extends(old(items), old(scopes), items, scopes, ids)
    }

    method WalkNode(n: Node, scope: Option<nat>, flat: bool, depth: nat)
      requires Valid() && Sound(n) && (scope.Some? ==> scope.value < |scopes|)
      requires Unseen(items, scopes, IdsOfFields(n.fields)) && Unseen([], scopes, {n.id})
      requires forall i: nat | i < |items| :: items[i].node == n.id ==> items[i].tag == n.tag
      modifies this
      ensures Walked(Ids(n))
      ensures forall i: nat | |old(items)| <= i < |items| :: items[i].node in IdsOfFields(n.fields)
      ensures places == old(places) + Places(starts, n, OwnerOf(old(scopes), scope), flat, depth)
      decreases n, 1
    {
      hide Timed, Recorded, Placed, Measured, LineOf, ColOf, InTurn;
      if depth < MAX_DEPTH {
        WalkFields(n, n.fields, n.tag.block, scope, flat, depth);
      }
    }

    method WalkFields(n: Node, fields: List<Field>, block: bool, scope: Option<nat>, flat: bool, depth: nat)
      requires Valid() && SoundFields(fields, block) && (scope.Some? ==> scope.value < |scopes|)
      requires n.id !in IdsOfFields(fields) && (block ==> n.tag.block)
      requires Unseen(items, scopes, IdsOfFields(fields)) && (block ==> Unseen([], scopes, {n.id}))
      requires forall i: nat | i < |items| :: items[i].node == n.id ==> items[i].tag == n.tag
      modifies this
      ensures Walked((if block then {n.id} else {}) + IdsOfFields(fields))
      ensures forall i: nat | |old(items)| <= i < |items| :: items[i].node in IdsOfFields(fields)
      ensures places == old(places) + PlacesOfFields(starts, n, fields, OwnerOf(old(scopes), scope), flat, depth)
      decreases fields, 0
    {
      hide Timed, Recorded, Placed, Measured, LineOf, ColOf, InTurn;
      if fields.Cons? {
        var f := fields.head;
        ghost var items0, scopes0, later := items, scopes, IdsOfFields(fields.tail);
        FewerUnseen(items, scopes, IdsOfFields(fields), IdsOfField(f));
        FewerUnseen(items, scopes, IdsOfFields(fields), later);
        WalkField(n, f, scope, flat, depth);
        ghost var ids := (if f.Items? then {n.id} else {}) + IdsOfField(f);
        assert n.id !in later;
        StillUnseen(items0, scopes0, items, scopes, ids, later);
        ghost var items1, scopes1 := items, scopes;
        ghost var block' := block && !f.Items?;
        WalkFields(n, fields.tail, block && !f.Items?, scope, flat, depth);
        ghost var ids' := (if block' then {n.id} else {}) + later;
        ExtendsTwice(items0, scopes0, items1, scopes1, ids, items, scopes, ids');
        MoreExtends(items0, scopes0, items, scopes, ids + ids', (if block then {n.id} else {}) + IdsOfFields(fields));
      }
    }

    method WalkField(n: Node, f: Field, scope: Option<nat>, flat: bool, depth: nat)
      requires Valid() && SoundField(f) && (scope.Some? ==> scope.value < |scopes|)
      requires n.id !in IdsOfField(f) && (f.Items? ==> n.tag.block)
      requires Unseen(items, scopes, IdsOfField(f)) && (f.Items? ==> Unseen([], scopes, {n.id}))
      requires forall i: nat | i < |items| :: items[i].node == n.id ==> items[i].tag == n.tag
      modifies this
      ensures Walked((if f.Items? then {n.id} else {}) + IdsOfField(f))
      ensures forall i: nat | |old(items)| <= i < |items| :: items[i].node in IdsOfField(f)
      ensures places == old(places) + PlacesOfField(starts, n, f, OwnerOf(old(scopes), scope), flat, depth)
      decreases f, 3
    {
      hide Timed, Recorded, Placed, Measured, LineOf, ColOf, InTurn;
      match f
      case Leaf =>
      case One(open, child) =>
        ghost var items0, scopes0 := items, scopes;
        FewerUnseen(items, scopes, Ids(child), IdsOfFields(child.fields));
        WalkNode(child, scope, flat || !open, depth + 1);
        MoreExtends(items0, scopes0, items, scopes, Ids(child), {} + Ids(child));
      case Many(open, children) => WalkAll(children, scope, flat || !open, depth + 1);
      case Items(open, children) => WalkScope(n, children, scope, flat || !open, depth);
    }

    method WalkAll(ns: List<Node>, scope: Option<nat>, flat: bool, depth: nat)
      requires Valid() && SoundAll(ns) && (scope.Some? ==> scope.value < |scopes|)
               && Unseen(items, scopes, IdsOfAll(ns))
      modifies this
      ensures Walked(IdsOfAll(ns))
      ensures places == old(places) + PlacesOfAll(starts, ns, OwnerOf(old(scopes), scope), flat, depth)
      decreases ns, 2
    {
      hide Timed, Recorded, Placed, Measured, LineOf, ColOf, InTurn;
      if ns.Cons? {
        ghost var items0, scopes0, later := items, scopes, IdsOfAll(ns.tail);
        FewerUnseen(items, scopes, IdsOfAll(ns), IdsOfFields(ns.head.fields));
        FewerUnseen(items, scopes, IdsOfAll(ns), later);
        WalkNode(ns.head, scope, flat, depth);
        StillUnseen(items0, scopes0, items, scopes, Ids(ns.head), later);
        ghost var items1, scopes1 := items, scopes;
        WalkAll(ns.tail, scope, flat, depth);
        ExtendsTwice(items0, scopes0, items1, scopes1, Ids(ns.head), items, scopes, later);
      }
    }

    /** A block: its scope, its items, and the point after the last of them. */
    method WalkScope(owner: Node, ns: List<Node>, parent: Option<nat>, flat: bool, depth: nat)
      requires Valid() && SoundAll(ns) && (parent.Some? ==> parent.value < |scopes|) && owner.tag.block
      requires owner.id !in IdsOfAll(ns) && Unseen(items, scopes, IdsOfAll(ns)) && Unseen([], scopes, {owner.id})
      requires forall i: nat | i < |items| :: items[i].node == owner.id ==> items[i].tag == owner.tag
      modifies this
      ensures Walked({owner.id} + IdsOfAll(ns))
      ensures forall i: nat | |old(items)| <= i < |items| :: items[i].node in IdsOfAll(ns)
      ensures var s := |old(scopes)|; s < |scopes| && scopes[s].closable == owner.tag.closable && scopes[s].flat == flat
      ensures places == old(places) + PlacesOfBlock(starts, owner, ns, OwnerOf(old(scopes), parent), flat, depth)
      decreases ns, 3
    {
      hide Timed, Recorded, Placed, Measured, LineOf, ColOf, InTurn;
      var col := BlockCol(starts, owner, ns);
      var s := PushScope(owner, parent, flat, col);
      WalkItems(ns, s, flat, depth);
      LeaveScope(s);
    }

    method WalkItems(ns: List<Node>, s: nat, flat: bool, depth: nat)
      requires Valid() && SoundAll(ns) && s < |scopes| && Unseen(items, scopes, IdsOfAll(ns))
      modifies this
      ensures Walked(IdsOfAll(ns))
      ensures places == old(places) + PlacesOfItems(starts, ns, old(scopes)[s].owner, flat, depth)
      decreases ns, 2
    {
      hide Timed, Recorded, Placed, Measured, LineOf, ColOf, InTurn;
      if ns.Cons? {
        ghost var items0, scopes0, later := items, scopes, IdsOfAll(ns.tail);
        FewerUnseen(items, scopes, IdsOfAll(ns), Ids(ns.head));
        FewerUnseen(items, scopes, IdsOfAll(ns), later);
        WalkItem(ns.head, s, flat, depth);
        StillUnseen(items0, scopes0, items, scopes, Ids(ns.head), later);
        ghost var items1, scopes1 := items, scopes;
        WalkItems(ns.tail, s, flat, depth);
        ExtendsTwice(items0, scopes0, items1, scopes1, Ids(ns.head), items, scopes, later);
      }
    }

    method WalkItem(n: Node, s: nat, flat: bool, depth: nat)
      requires Valid() && Sound(n) && s < |scopes| && Unseen(items, scopes, Ids(n))
      modifies this
      ensures Walked(Ids(n))
      ensures places == old(places) + PlacesOfItem(starts, n, old(scopes)[s].owner, flat, depth)
      decreases n, 2
    {
      hide Timed, Recorded, Placed, Measured, LineOf, ColOf, InTurn;
      FewerUnseen(items, scopes, Ids(n), {n.id});
      var idx := PushItem(n, s, flat);
      WalkNode(n, Some(s), flat, depth + 1);
      LeaveItem(idx);
    }

    /** The whole file: its own block is scope 0, and nothing stays open. */
    method WalkFile(id: nat, off: nat, len: nat, decls: List<Node>)
      requires Valid() && items == [] && scopes == [] && openItems == {} && openScopes == {}
      requires SoundAll(decls) && id !in IdsOfAll(decls) && places == []
      modifies this
      ensures Valid() && openItems == {} && openScopes == {} && places == FilePlaces(starts, id, off, len, decls)
      ensures |scopes| > 0 && scopes[0].closable && !scopes[0].flat
    {
      hide Timed, Recorded, Placed, Measured, LineOf, ColOf, InTurn;
      WalkScope(FileNode(id, off, len, decls), decls, None, false, 0);
    }
  }
}
