/**
  Attaching the comments (grammar/c/wok_trivia.c:384-461, 553-671) to the places the walk numbered, and
  writing them back from the entries (grammar/c/wok_print.c:355-385).
*/
module TriviaAttach {
  import opened Tokens
  import opened Trivia

  datatype Comment = Comment(off: nat, len: nat, line: nat, col: nat, startsLine: bool)

  datatype Kind = Before | After | Closing

  datatype Target = Target(kind: Kind, idx: nat, rank: nat)

  // ---------------------------------------------------------------- what the walk delivers

  /** Nothing open, and the file's own block as a last resort. */
  ghost predicate Toured(items: seq<Item>, scopes: seq<Scope>, tour: seq<Event>)
  {
    && Timed(items, scopes, tour, {}, {}) && Recorded(items, scopes)
    && |scopes| > 0 && scopes[0].closable && !scopes[0].flat
  }

  predicate ParentsBefore(scopes: seq<Scope>)
  {
    forall s: nat | s < |scopes| && scopes[s].parent.Some? :: scopes[s].parent.value < s
  }

  /** Where a target is written. */
  function Rank(items: seq<Item>, scopes: seq<Scope>, kind: Kind, idx: nat): nat
    requires if kind.Closing? then idx < |scopes| else idx < |items|
  {
    match kind
    case Before => items[idx].enter
    case After => items[idx].exit
    case Closing => scopes[idx].close
  }

  /** A place the printer does write comments at, with its own slot to hold them. */
  predicate Usable(items: seq<Item>, scopes: seq<Scope>, t: Target)
  {
    && (if t.kind.Closing? then t.idx < |scopes| && scopes[t.idx].closable && !scopes[t.idx].flat
        else t.idx < |items| && !items[t.idx].flat && (t.kind.After? ==> TakesTrail(items[t.idx].tag)))
    && t.rank == Rank(items, scopes, t.kind, t.idx)
  }

  ghost predicate AllUsable(items: seq<Item>, scopes: seq<Scope>, targets: seq<Target>)
  {
    forall k: nat | k < |targets| :: Usable(items, scopes, targets[k])
  }

  /** The node whose entry holds the comments of a target. */
  function NodeOf(items: seq<Item>, scopes: seq<Scope>, t: Target): nat
    requires if t.kind.Closing? then t.idx < |scopes| else t.idx < |items|
  {
    if t.kind.Closing? then scopes[t.idx].owner else items[t.idx].node
  }

  // ---------------------------------------------------------------- choosing a target

  /** The last item that begins and ends on the comment's line, left of it, and can take it. */
  function LineItem(items: seq<Item>, before: nat, c: Comment): (r: Option<nat>)
    requires before <= |items|
    ensures r.Some? ==> r.value < before && !items[r.value].flat && TakesTrail(items[r.value].tag)
  {
    if before == 0 then None
    else
      var it := items[before - 1];
      if it.line < c.line then None
      else if it.flat || it.endLine != c.line || !TakesTrail(it.tag) || it.off + it.len > c.off then
        LineItem(items, before - 1, c)
      else Some(before - 1)
  }

  /** The innermost closable block whose items sit at or left of the comment. */
  function CloseScope(scopes: seq<Scope>, s: Option<nat>, col: nat): nat
    requires ParentsBefore(scopes) && (s.Some? ==> s.value < |scopes|)
    decreases if s.Some? then s.value + 1 else 0
  {
    if s.None? then 0
    else
      var sc := scopes[s.value];
      if sc.closable && !sc.flat && sc.itemCol <= col then s.value else CloseScope(scopes, sc.parent, col)
  }

  predicate Encloses(scopes: seq<Scope>, outer: nat, inner: Option<nat>)
    requires ParentsBefore(scopes) && (inner.Some? ==> inner.value < |scopes|)
    decreases if inner.Some? then inner.value + 1 else 0
  {
    inner.Some? && (inner.value == outer || Encloses(scopes, outer, scopes[inner.value].parent))
  }

  /** The items in front that begin left of `x`. */
  function CountBefore(items: seq<Item>, x: nat): (n: nat)
    ensures n <= |items|
  {
    CountFrom(items, 0, x)
  }

  function CountFrom(items: seq<Item>, i: nat, x: nat): (n: nat)
    requires i <= |items|
    ensures i <= n <= |items|
    decreases |items| - i
  {
    if i < |items| && items[i].off < x then CountFrom(items, i + 1, x) else i
  }

  /** The first item, not flat, that begins at or after `x`, from `i` on. */
  function NextFrom(items: seq<Item>, i: nat, x: nat): (n: nat)
    requires i <= |items|
    ensures i <= n <= |items| && (n < |items| ==> !items[n].flat)
    decreases |items| - i
  {
    if i < |items| && (items[i].flat || items[i].off < x) then NextFrom(items, i + 1, x) else i
  }

  predicate Scoped(items: seq<Item>, scopes: seq<Scope>)
  {
    ParentsBefore(scopes) && |scopes| > 0 && forall i: nat | i < |items| :: items[i].scope < |scopes|
  }

  /** Rules 2, 1 and 3, in the order they are tried. */
  function Decide(items: seq<Item>, scopes: seq<Scope>, c: Comment): Target
    requires Scoped(items, scopes)
  {
    var before, next := CountBefore(items, c.off), NextFrom(items, 0, c.off + c.len);
    var own := if c.startsLine then None else LineItem(items, before, c);
    if own.Some? then Target(After, own.value, items[own.value].exit)
    else if next < |items| && c.col <= items[next].col then Target(Before, next, items[next].enter)
    else
      var s := CloseScope(scopes, if before == 0 then None else Some(items[before - 1].scope), c.col);
      CloseScopeIn(scopes, if before == 0 then None else Some(items[before - 1].scope), c.col);
      if next < |items| && Encloses(scopes, s, Some(items[next].scope)) then Target(Before, next, items[next].enter)
      else Target(Closing, s, scopes[s].close)
  }

  lemma CloseScopeIn(scopes: seq<Scope>, s: Option<nat>, col: nat)
    requires ParentsBefore(scopes) && (s.Some? ==> s.value < |scopes|) && |scopes| > 0
    ensures var r := CloseScope(scopes, s, col);
            r < |scopes| && (scopes[0].closable && !scopes[0].flat ==> scopes[r].closable && !scopes[r].flat)
    decreases if s.Some? then s.value + 1 else 0
  {
    if s.Some? {
      CloseScopeIn(scopes, scopes[s.value].parent, col);
    }
  }

  /** A target that would print before its predecessor joins it instead. */
  function TargetAt(items: seq<Item>, scopes: seq<Scope>, cs: seq<Comment>, k: nat): Target
    requires Scoped(items, scopes) && k < |cs|
  {
    var t := Decide(items, scopes, cs[k]);
    if k == 0 then t
    else
      var prev := TargetAt(items, scopes, cs, k - 1);
      if t.rank < prev.rank then prev else t
  }

  lemma DecideUsable(items: seq<Item>, scopes: seq<Scope>, c: Comment)
    requires Scoped(items, scopes) && scopes[0].closable && !scopes[0].flat
    ensures Usable(items, scopes, Decide(items, scopes, c))
  {
    var before := CountBefore(items, c.off);
    CloseScopeIn(scopes, if before == 0 then None else Some(items[before - 1].scope), c.col);
    hide LineItem, CloseScope, Encloses, CountBefore, NextFrom;
  }

  lemma {:induction false} TargetUsable(items: seq<Item>, scopes: seq<Scope>, cs: seq<Comment>, k: nat)
    requires Scoped(items, scopes) && scopes[0].closable && !scopes[0].flat && k < |cs|
    ensures Usable(items, scopes, TargetAt(items, scopes, cs, k))
  {
    hide Decide, Usable;
    DecideUsable(items, scopes, cs[k]);
    if k > 0 {
      TargetUsable(items, scopes, cs, k - 1);
    }
  }

  /** The order guarantee. */
  lemma {:induction false} RanksRise(items: seq<Item>, scopes: seq<Scope>, cs: seq<Comment>, j: nat, k: nat)
    requires Scoped(items, scopes) && j <= k < |cs|
    ensures TargetAt(items, scopes, cs, j).rank <= TargetAt(items, scopes, cs, k).rank
    decreases k
  {
    hide Decide;
    if j < k {
      RanksRise(items, scopes, cs, j, k - 1);
    }
  }

  lemma TouredScoped(items: seq<Item>, scopes: seq<Scope>, tour: seq<Event>)
    requires Toured(items, scopes, tour)
    ensures Scoped(items, scopes)
  {
  }

  // ---------------------------------------------------------------- what the scans find

  /** Items come in source order, as a walk in print order meets them. */
  ghost predicate SourceOrder(items: seq<Item>)
  {
    forall i: nat, j: nat | i < j < |items| :: items[i].off <= items[j].off
  }

  /** The item begins and ends on the comment's line, left of it, and may take a comment behind it. */
  predicate OnLine(it: Item, c: Comment)
  {
    !it.flat && it.line == it.endLine == c.line && TakesTrail(it.tag) && it.off + it.len <= c.off
  }

  lemma {:induction false} LineOfRises(starts: seq<nat>, x: nat, y: nat)
    requires x <= y
    ensures LineOf(starts, x) <= LineOf(starts, y)
    decreases |starts|
  {
    if |starts| > 1 {
      LineOfRises(starts[..|starts| - 1], x, y);
      LineOfBelow(starts[..|starts| - 1], x);
    }
  }

  lemma LineOfBelow(starts: seq<nat>, x: nat)
    ensures LineOf(starts, x) <= |starts|
  {
  }

  /** All items left of `x`, and no others. */
  lemma {:induction false} CountIsAll(items: seq<Item>, i: nat, x: nat)
    requires SourceOrder(items) && i <= |items|
    ensures forall j: nat | i <= j < |items| :: items[j].off < x <==> j < CountFrom(items, i, x)
    decreases |items| - i
  {
    if i < |items| && items[i].off < x {
      CountIsAll(items, i + 1, x);
    }
  }

  /** The first item that is not flat and begins at or behind `x`. */
  lemma {:induction false} NextIsFirst(items: seq<Item>, i: nat, x: nat)
    requires i <= |items|
    ensures var n := NextFrom(items, i, x);
            && (forall j: nat | i <= j < n :: items[j].flat || items[j].off < x)
            && (n < |items| ==> !items[n].flat && items[n].off >= x)
    decreases |items| - i
  {
    if i < |items| && (items[i].flat || items[i].off < x) {
      NextIsFirst(items, i + 1, x);
    }
  }

  /** The last item on the comment's line, of all items of the file. */
  lemma LineItemIsLast(starts: seq<nat>, items: seq<Item>, c: Comment)
    requires SourceOrder(items) && Measured(starts, items) && c.line == LineOf(starts, c.off)
    ensures var r := LineItem(items, CountBefore(items, c.off), c);
            && (r.Some? ==> r.value < |items| && OnLine(items[r.value], c))
            && forall j: nat | j < |items| && OnLine(items[j], c) && items[j].off < c.off :: r.Some? && j <= r.value
  {
    CountIsAll(items, 0, c.off);
    LineItemFrom(starts, items, CountBefore(items, c.off), c);
  }

  lemma {:induction false} LineItemFrom(starts: seq<nat>, items: seq<Item>, before: nat, c: Comment)
    requires SourceOrder(items) && Measured(starts, items) && c.line == LineOf(starts, c.off) && before <= |items|
    requires forall j: nat | j < before :: items[j].off < c.off
    ensures var r := LineItem(items, before, c);
            && (r.Some? ==> OnLine(items[r.value], c))
            && forall j: nat | j < before && OnLine(items[j], c) :: r.Some? && j <= r.value
    decreases before
  {
    if before > 0 {
      var it := items[before - 1];
      assert MeasuredItem(starts, it);
      LineOfRises(starts, it.off, c.off);
      LineOfRises(starts, it.off, LastOf(it.off, it.len));
      if it.line < c.line {
        forall j: nat | j < before
          ensures !OnLine(items[j], c)
        {
          assert MeasuredItem(starts, items[j]);
          LineOfRises(starts, items[j].off, it.off);
        }
      } else {
        LineItemFrom(starts, items, before - 1, c);
      }
    }
  }

  // ---------------------------------------------------------------- the cursors and the choice

  method FindLineItem(items: seq<Item>, before: nat, c: Comment) returns (r: Option<nat>)
    requires before <= |items|
    ensures r == LineItem(items, before, c)
  {
    var i: nat := before;
    while i > 0
      invariant i <= before && LineItem(items, before, c) == LineItem(items, i, c)
    {
      var it := items[i - 1];
      if it.line < c.line {
        return None;
      }
      if !(it.flat || it.endLine != c.line || !TakesTrail(it.tag) || it.off + it.len > c.off) {
        return Some(i - 1);
      }
      i := i - 1;
    }
    r := None;
  }

  method ChooseCloseScope(items: seq<Item>, scopes: seq<Scope>, before: nat, col: nat) returns (s: nat)
    requires Scoped(items, scopes) && before <= |items|
    ensures s == CloseScope(scopes, if before == 0 then None else Some(items[before - 1].scope), col)
  {
    var at: Option<nat> := if before == 0 then None else Some(items[before - 1].scope);
    ghost var start: Option<nat> := at;
    while at.Some?
      invariant at.Some? ==> at.value < |scopes|
      invariant CloseScope(scopes, start, col) == CloseScope(scopes, at, col)
      decreases if at.Some? then at.value + 1 else 0
    {
      var sc := scopes[at.value];
      if sc.closable && !sc.flat && sc.itemCol <= col {
        return at.value;
      }
      at := sc.parent;
    }
    s := 0;
  }

  method ScopeEncloses(scopes: seq<Scope>, outer: nat, inner: nat) returns (yes: bool)
    requires ParentsBefore(scopes) && inner < |scopes|
    ensures yes == Encloses(scopes, outer, Some(inner))
  {
    var at: Option<nat> := Some(inner);
    while at.Some?
      invariant at.Some? ==> at.value < |scopes|
      invariant Encloses(scopes, outer, Some(inner)) == Encloses(scopes, outer, at)
      decreases if at.Some? then at.value + 1 else 0
    {
      if at.value == outer {
        return true;
      }
      at := scopes[at.value].parent;
    }
    yes := false;
  }

  lemma {:induction false} CountMoves(items: seq<Item>, i: nat, x: nat, y: nat)
    requires i <= |items| && x <= y
    ensures CountFrom(items, i, y) == CountFrom(items, CountFrom(items, i, x), y)
    decreases |items| - i
  {
    if i < |items| && items[i].off < x {
      CountMoves(items, i + 1, x, y);
    }
  }

  lemma {:induction false} NextMoves(items: seq<Item>, i: nat, x: nat, y: nat)
    requires i <= |items| && x <= y
    ensures NextFrom(items, i, y) == NextFrom(items, NextFrom(items, i, x), y)
    decreases |items| - i
  {
    if i < |items| && (items[i].flat || items[i].off < x) {
      NextMoves(items, i + 1, x, y);
    }
  }

  /** One comment, given how far the two cursors have come. */
  method DecideOne(items: seq<Item>, scopes: seq<Scope>, before: nat, next: nat, c: Comment) returns (t: Target)
    requires Scoped(items, scopes) && before == CountBefore(items, c.off) && next == NextFrom(items, 0, c.off + c.len)
    ensures t == Decide(items, scopes, c)
  {
    hide LineItem, CloseScope, Encloses, CountBefore, NextFrom;
    if !c.startsLine {
      var own := FindLineItem(items, before, c);
      if own.Some? {
        return Target(After, own.value, items[own.value].exit);
      }
    }
    if next < |items| && c.col <= items[next].col {
      return Target(Before, next, items[next].enter);
    }
    var s := ChooseCloseScope(items, scopes, before, c.col);
    CloseScopeIn(scopes, if before == 0 then None else Some(items[before - 1].scope), c.col);
    if next < |items| {
      var inside := ScopeEncloses(scopes, s, items[next].scope);
      if inside {
        return Target(Before, next, items[next].enter);
      }
    }
    t := Target(Closing, s, scopes[s].close);
  }

  lemma InOrderStep(cs: seq<Comment>, ci: nat)
    requires InOrder(cs) && 0 < ci < |cs|
    ensures cs[ci - 1].off <= cs[ci].off && cs[ci - 1].off + cs[ci - 1].len <= cs[ci].off + cs[ci].len
  {
  }

  /** Comments come in source order, so both cursors only move forward. */
  method ChooseTargets(items: seq<Item>, scopes: seq<Scope>, cs: seq<Comment>) returns (targets: seq<Target>)
    requires Scoped(items, scopes)
    requires InOrder(cs)
    ensures |targets| == |cs| && forall k: nat | k < |cs| :: targets[k] == TargetAt(items, scopes, cs, k)
  {
    hide Decide, Scoped, CountFrom, NextFrom, Rank, Usable, InOrder;
    targets := [];
    var before: nat, next: nat, ci: nat := 0, 0, 0;
    while ci < |cs|
      invariant ci <= |cs| && |targets| == ci && before <= |items| && next <= |items|
      invariant forall k: nat | k < ci :: targets[k] == TargetAt(items, scopes, cs, k)
      invariant ci > 0 ==> before == CountBefore(items, cs[ci - 1].off)
      invariant ci > 0 ==> next == NextFrom(items, 0, cs[ci - 1].off + cs[ci - 1].len)
      invariant ci == 0 ==> before == 0 && next == 0
    {
      var c := cs[ci];
      if ci > 0 {
        InOrderStep(cs, ci);
        CountMoves(items, 0, cs[ci - 1].off, c.off);
        NextMoves(items, 0, cs[ci - 1].off + cs[ci - 1].len, c.off + c.len);
      }
      before := AdvanceBefore(items, before, c.off);
      next := AdvanceNext(items, next, c.off + c.len);
      var t := DecideOne(items, scopes, before, next, c);
      if ci > 0 && t.rank < targets[ci - 1].rank {
        t := targets[ci - 1];
      }
      assert t == TargetAt(items, scopes, cs, ci);
      targets := targets + [t];
      ci := ci + 1;
    }
  }

  method AdvanceBefore(items: seq<Item>, from: nat, x: nat) returns (n: nat)
    requires from <= |items|
    ensures n == CountFrom(items, from, x)
  {
    n := from;
    while n < |items| && items[n].off < x
      invariant from <= n <= |items| && CountFrom(items, from, x) == CountFrom(items, n, x)
    {
      n := n + 1;
    }
  }

  method AdvanceNext(items: seq<Item>, from: nat, x: nat) returns (n: nat)
    requires from <= |items|
    ensures n == NextFrom(items, from, x)
  {
    n := from;
    while n < |items| && (items[n].flat || items[n].off < x)
      invariant from <= n <= |items| && NextFrom(items, from, x) == NextFrom(items, n, x)
    {
      n := n + 1;
    }
  }

  // ---------------------------------------------------------------- the entry table

  /** What a node carries: two runs of comment indices. */
  datatype Entry = Entry(leadFirst: nat, leadN: nat, trailFirst: nat, trailN: nat)

  /** A run of an entry: which node, and which of the two. */
  datatype Slot = Slot(node: nat, lead: bool)

  datatype Run = Run(first: nat, n: nat)

  function RunOf(entries: map<nat, Entry>, s: Slot): Run
  {
    if s.node !in entries then Run(0, 0)
    else if s.lead then Run(entries[s.node].leadFirst, entries[s.node].leadN)
    else Run(entries[s.node].trailFirst, entries[s.node].trailN)
  }

  predicate In(r: Run, k: nat)
  {
    r.first <= k < r.first + r.n
  }

  /** Comments that share a slot are adjacent. */
  ghost predicate Adjacent(slots: seq<Slot>)
  {
    forall i: nat, j: nat, k: nat | i <= j <= k < |slots| && slots[i] == slots[k] :: slots[j] == slots[i]
  }

  /** Every run holds exactly the comments of its slot. */
  ghost predicate Holds(entries: map<nat, Entry>, slots: seq<Slot>, done: nat)
    requires done <= |slots|
  {
    forall s: Slot, k: nat :: Fits(RunOf(entries, s), s, slots, done, k)
  }

  predicate Fits(r: Run, s: Slot, slots: seq<Slot>, done: nat, k: nat)
    requires done <= |slots|
  {
    In(r, k) <==> k < done && slots[k] == s
  }

  function NewRun(r: Run, ci: nat): Run
  {
    Run(if r.n == 0 then ci else r.first, r.n + 1)
  }

  /** One comment more lengthens its run by one at the end. */
  lemma RunGrows(entries: map<nat, Entry>, slots: seq<Slot>, ci: nat)
    requires ci < |slots| && Adjacent(slots) && Holds(entries, slots, ci)
    ensures var r := RunOf(entries, slots[ci]);
            forall k: nat :: In(NewRun(r, ci), k) <==> In(r, k) || k == ci
  {
    var r := RunOf(entries, slots[ci]);
    if r.n > 0 {
      var last: nat := r.first + r.n - 1;
      assert Fits(r, slots[ci], slots, ci, r.first) && Fits(r, slots[ci], slots, ci, last);
      assert slots[ci - 1] == slots[ci];
      assert Fits(r, slots[ci], slots, ci, ci - 1);
    }
  }

  lemma HoldsOn(entries: map<nat, Entry>, entries': map<nat, Entry>, slots: seq<Slot>, ci: nat)
    requires ci < |slots| && Adjacent(slots) && Holds(entries, slots, ci)
    requires forall s: Slot :: RunOf(entries', s) == if s == slots[ci] then NewRun(RunOf(entries, s), ci)
             else RunOf(entries, s)
    ensures Holds(entries', slots, ci + 1)
  {
    hide RunOf, NewRun, In, Adjacent;
    RunGrows(entries, slots, ci);
    var next: nat := ci + 1;
    forall s: Slot, k: nat
      ensures Fits(RunOf(entries', s), s, slots, next, k)
    {
      assert Fits(RunOf(entries, s), s, slots, ci, k);
      assert RunOf(entries', s) == if s == slots[ci] then NewRun(RunOf(entries, s), ci) else RunOf(entries, s);
    }
  }

  predicate InRange(items: seq<Item>, scopes: seq<Scope>, t: Target)
  {
    if t.kind.Closing? then t.idx < |scopes| else t.idx < |items|
  }

  function SlotOf(items: seq<Item>, scopes: seq<Scope>, t: Target): Slot
    requires InRange(items, scopes, t)
  {
    Slot(NodeOf(items, scopes, t), t.kind.Before?)
  }

  ghost predicate SlotsOf(items: seq<Item>, scopes: seq<Scope>, targets: seq<Target>, slots: seq<Slot>)
  {
    && |slots| == |targets| && (forall k: nat | k < |targets| :: InRange(items, scopes, targets[k]))
    && forall k: nat | k < |slots| :: slots[k] == SlotOf(items, scopes, targets[k])
  }

  /** The source's last loop: each comment goes to the run of its target's node. */
  method FillEntries(items: seq<Item>, scopes: seq<Scope>, targets: seq<Target>, ghost slots: seq<Slot>)
    returns (entries: map<nat, Entry>)
    requires SlotsOf(items, scopes, targets, slots) && Adjacent(slots)
    ensures Holds(entries, slots, |targets|)
  {
    hide Adjacent, Holds;
    entries := map[];
    EmptyHolds(slots);
    var ci: nat := 0;
    while ci < |targets|
      invariant ci <= |targets| && Holds(entries, slots, ci)
    {
      var t := targets[ci];
      var node := NodeOf(items, scopes, t);
      var e := if node in entries then entries[node] else Entry(0, 0, 0, 0);
      if t.kind.Before? {
        e := e.(leadFirst := if e.leadN == 0 then ci else e.leadFirst);
        e := e.(leadN := e.leadN + 1);
      } else {
        e := e.(trailFirst := if e.trailN == 0 then ci else e.trailFirst);
        e := e.(trailN := e.trailN + 1);
      }
      HoldsOn(entries, entries[node := e], slots, ci);
      entries := entries[node := e];
      ci := ci + 1;
    }
  }

  lemma EmptyHolds(slots: seq<Slot>)
    ensures Holds(map[], slots, 0)
  {
  }

  // ---------------------------------------------------------------- one slot, one place

  function EventOf(t: Target): Event
  {
    match t.kind
    case Before => Enter(t.idx)
    case After => Exit(t.idx)
    case Closing => Close(t.idx)
  }

  /** Two targets of one slot are one place of the tour: a trailing run never serves two purposes. */
  lemma SlotFixesTarget(items: seq<Item>, scopes: seq<Scope>, t: Target, u: Target)
    requires Recorded(items, scopes) && Usable(items, scopes, t) && Usable(items, scopes, u)
    requires SlotOf(items, scopes, t) == SlotOf(items, scopes, u)
    ensures t == u
  {
    OneUse(items, scopes, t, u);
    OneUse(items, scopes, u, t);
  }

  /** A node that takes comments after it as an item takes none as the end of its block. */
  lemma OneUse(items: seq<Item>, scopes: seq<Scope>, t: Target, u: Target)
    requires Recorded(items, scopes) && Usable(items, scopes, t) && Usable(items, scopes, u)
    ensures t.kind.After? && u.kind.Closing? ==> NodeOf(items, scopes, t) != NodeOf(items, scopes, u)
  {
    if t.kind.After? && u.kind.Closing? {
      assert SameTag(items[t.idx], scopes[u.idx]);
    }
  }

  /** And two targets of one rank are one place of the tour. */
  lemma RankFixesTarget(items: seq<Item>, scopes: seq<Scope>, tour: seq<Event>, t: Target, u: Target)
    requires Toured(items, scopes, tour) && Usable(items, scopes, t) && Usable(items, scopes, u) && t.rank == u.rank
    ensures t == u
  {
    RankInTour(items, scopes, tour, t);
    RankInTour(items, scopes, tour, u);
  }

  lemma RankInTour(items: seq<Item>, scopes: seq<Scope>, tour: seq<Event>, t: Target)
    requires Toured(items, scopes, tour) && Usable(items, scopes, t)
    ensures t.rank < |tour| && tour[t.rank] == EventOf(t)
  {
  }

  /** Ranks never fall, so the comments of one slot are adjacent. */
  lemma SlotsAdjacent(items: seq<Item>, scopes: seq<Scope>, tour: seq<Event>, targets: seq<Target>, slots: seq<Slot>)
    requires Toured(items, scopes, tour) && SlotsOf(items, scopes, targets, slots)
    requires AllUsable(items, scopes, targets)
    requires Rising(targets)
    ensures Adjacent(slots)
  {
    hide Timed, Recorded, Usable;
    forall i: nat, j: nat, k: nat | i <= j <= k < |slots| && slots[i] == slots[k]
      ensures slots[j] == slots[i]
    {
      SlotFixesTarget(items, scopes, targets[i], targets[k]);
      RankFixesTarget(items, scopes, tour, targets[i], targets[j]);
    }
  }

  ghost predicate Rising(targets: seq<Target>)
  {
    forall i: nat, j: nat | i <= j < |targets| :: targets[i].rank <= targets[j].rank
  }

  // ---------------------------------------------------------------- writing the comments back

  /** The slot the printer reads at a place; inside brackets, and at the end of a `where`, it reads none. */
  function SlotAt(p: Place): Option<Slot>
  {
    match p
    case Lead(node, _, _, _, flat) => if flat then None else Some(Slot(node, true))
    case Trail(node, tag, flat) => if flat || !TakesTrail(tag) then None else Some(Slot(node, false))
    case End(node, closable, flat, _, _) => if flat || !closable then None else Some(Slot(node, false))
  }

  /** The comments written there, by index. */
  function WrittenAt(entries: map<nat, Entry>, p: Place): seq<nat>
  {
    Range(RunAt(entries, p))
  }

  function RunAt(entries: map<nat, Entry>, p: Place): Run
  {
    if SlotAt(p).None? then Run(0, 0) else RunOf(entries, SlotAt(p).value)
  }

  function Range(r: Run): seq<nat>
  {
    seq(r.n, i requires 0 <= i => r.first + i)
  }

  function Written(entries: map<nat, Entry>, places: seq<Place>): seq<nat>
  {
    if places == [] then []
    else Written(entries, places[..|places| - 1]) + WrittenAt(entries, places[|places| - 1])
  }

  /** At its time in the tour a place gets exactly the comments ranked there. */
  lemma RankedHere(items: seq<Item>, scopes: seq<Scope>, tour: seq<Event>, places: seq<Place>, targets: seq<Target>,
                   slots: seq<Slot>, entries: map<nat, Entry>, r: nat, k: nat)
    requires Toured(items, scopes, tour) && Placed(items, scopes, tour, places)
             && SlotsOf(items, scopes, targets, slots)
    requires AllUsable(items, scopes, targets) && Holds(entries, slots, |targets|)
    requires r < |tour| && k < |targets|
    requires |places| == |tour|
    ensures targets[k].rank == r <==> In(RunAt(entries, places[r]), k)
  {
    hide RunOf, Recorded, Timed, Usable, SlotOf, PlaceOf;
    var t := targets[k];
    RankInTour(items, scopes, tour, t);
    assert PlaceOf(items, scopes, tour[r]) == Some(places[r]);
    if t.rank == r {
      PlaceOfTarget(items, scopes, t, places[r]);
      assert Fits(RunOf(entries, slots[k]), slots[k], slots, |targets|, k);
    } else if SlotAt(places[r]).Some? {
      var s := SlotAt(places[r]).value;
      var u := TargetHere(items, scopes, tour, places[r], r);
      assert Fits(RunOf(entries, s), s, slots, |targets|, k);
      if slots[k] == s {
        SlotFixesTarget(items, scopes, t, u);
      }
    }
  }

  lemma PlaceOfTarget(items: seq<Item>, scopes: seq<Scope>, t: Target, p: Place)
    requires Usable(items, scopes, t) && PlaceOf(items, scopes, EventOf(t)) == Some(p)
    ensures SlotAt(p) == Some(SlotOf(items, scopes, t))
  {
  }

  /** A place with a slot is a place comments can be ranked at. */
  lemma TargetHere(items: seq<Item>, scopes: seq<Scope>, tour: seq<Event>, p: Place, r: nat) returns (u: Target)
    requires Toured(items, scopes, tour) && r < |tour| && PlaceOf(items, scopes, tour[r]) == Some(p) && SlotAt(p).Some?
    ensures Usable(items, scopes, u) && u.rank == r && SlotOf(items, scopes, u) == SlotAt(p).value
  {
    hide Recorded;
    assert OnTime(items, scopes, tour[r], r);
    match tour[r]
    case Enter(i) => u := Target(Before, i, r);
    case Exit(i) => u := Target(After, i, r);
    case Close(s) => u := Target(Closing, s, r);
  }

  /** Up to any place, what has been written is the comments ranked before it, in order. */
  lemma {:induction false} WrittenSoFar(items: seq<Item>, scopes: seq<Scope>, tour: seq<Event>, places: seq<Place>,
                                        targets: seq<Target>, slots: seq<Slot>, entries: map<nat, Entry>, r: nat)
                                          returns (m: nat)
    requires Toured(items, scopes, tour) && Placed(items, scopes, tour, places)
             && SlotsOf(items, scopes, targets, slots)
    requires AllUsable(items, scopes, targets) && Rising(targets) && Holds(entries, slots, |targets|)
    requires r <= |tour|
    requires |places| == |tour|
    ensures m <= |targets| && Written(entries, places[..r]) == Range(Run(0, m))
    ensures forall k: nat | k < |targets| :: k < m <==> targets[k].rank < r
  {
    hide Toured, Usable, Holds, RunAt, In, Placed;
    if r == 0 {
      m := 0;
    } else {
      var l := WrittenSoFar(items, scopes, tour, places, targets, slots, entries, r - 1);
      forall k: nat | k < |targets|
        ensures targets[k].rank == r - 1 <==> In(RunAt(entries, places[r - 1]), k)
      {
        RankedHere(items, scopes, tour, places, targets, slots, entries, r - 1, k);
      }
      assert places[..r][..r - 1] == places[..r - 1];
      RunInside(entries, slots, places[r - 1]);
      m := NextRun(targets, l, r - 1, RunAt(entries, places[r - 1]));
    }
  }

  lemma RunInside(entries: map<nat, Entry>, slots: seq<Slot>, p: Place)
    requires Holds(entries, slots, |slots|)
    ensures RunAt(entries, p).n > 0 ==> RunAt(entries, p).first + RunAt(entries, p).n <= |slots|
  {
    var r := RunAt(entries, p);
    if r.n > 0 {
      assert Fits(r, SlotAt(p).value, slots, |slots|, r.first + r.n - 1);
    }
  }

  lemma NextRun(targets: seq<Target>, l: nat, r: nat, run: Run) returns (m: nat)
    requires Rising(targets) && l <= |targets| && (run.n > 0 ==> run.first + run.n <= |targets|)
    requires forall k: nat | k < |targets| :: k < l <==> targets[k].rank < r
    requires forall k: nat | k < |targets| :: In(run, k) <==> targets[k].rank == r
    ensures l <= m <= |targets| && Range(Run(0, l)) + Range(run) == Range(Run(0, m))
    ensures forall k: nat | k < |targets| :: k < m <==> targets[k].rank < r + 1
  {
    m := l + run.n;
    if run.n > 0 {
      assert In(run, run.first);
      assert targets[l].rank <= targets[run.first].rank;
    }
  }

  // ---------------------------------------------------------------- the rules, told without the scans

  /** The place of a comment in the source. */
  datatype Span = Span(off: nat, len: nat)

  function CommentAt(src: string, starts: seq<nat>, s: Span): Comment
    requires s.off <= |src|
  {
    Comment(s.off, s.len, LineOf(starts, s.off), ColOf(starts, s.off), StartsItsLine(src, starts, s.off))
  }

  /** Rule 2: the comment shares its line with items in front, and this is the last of them. */
  ghost predicate Trails(items: seq<Item>, c: Comment, i: nat)
  {
    && i < |items| && !c.startsLine && OnLine(items[i], c) && items[i].off < c.off
    && forall j: nat | j < |items| && OnLine(items[j], c) && items[j].off < c.off :: j <= i
  }

  /** The first item behind the comment that can take one. */
  ghost predicate Behind(items: seq<Item>, c: Comment, n: nat)
  {
    && n < |items| && !items[n].flat && items[n].off >= c.off + c.len
    && forall j: nat | j < n :: items[j].flat || items[j].off < c.off + c.len
  }

  /** The last item in front of the comment. */
  ghost predicate InFront(items: seq<Item>, c: Comment, p: nat)
  {
    && p < |items| && items[p].off < c.off
    && forall j: nat | j < |items| && items[j].off < c.off :: j <= p
  }

  /** From a block out to one around it, parent by parent. */
  ghost predicate Outward(scopes: seq<Scope>, way: seq<nat>)
  {
    && |way| > 0 && (forall i: nat | i < |way| :: way[i] < |scopes|)
    && forall i: nat | i + 1 < |way| :: scopes[way[i]].parent == Some(way[i + 1])
  }

  /** The block is the inner one or stands around it. */
  ghost predicate Surrounds(scopes: seq<Scope>, outer: nat, inner: nat)
  {
    exists way: seq<nat> :: Outward(scopes, way) && way[0] == inner && way[|way| - 1] == outer
  }

  /** A block the comment may end: its items sit at or left of it. */
  predicate CanEnd(scopes: seq<Scope>, s: nat, c: Comment)
  {
    s < |scopes| && scopes[s].closable && !scopes[s].flat && scopes[s].itemCol <= c.col
  }

  /** A block around the item in front that the comment may end. */
  ghost predicate MayEnd(items: seq<Item>, scopes: seq<Scope>, c: Comment, s: nat)
  {
    CanEnd(scopes, s, c) && exists p: nat :: InFront(items, c, p) && Surrounds(scopes, s, items[p].scope)
  }

  /** Rule 3: the innermost of them, or the file. */
  ghost predicate Ends(items: seq<Item>, scopes: seq<Scope>, c: Comment, s: nat)
  {
    if exists u: nat :: MayEnd(items, scopes, c, u) then
      MayEnd(items, scopes, c, s) && forall u: nat | MayEnd(items, scopes, c, u) :: Surrounds(scopes, u, s)
    else s == 0
  }

  /** What follows the comment is still inside the block. */
  ghost predicate GoesOn(items: seq<Item>, scopes: seq<Scope>, c: Comment, s: nat)
  {
    exists n: nat :: Behind(items, c, n) && Surrounds(scopes, s, items[n].scope)
  }

  /** Rule 1 by the column alone. */
  ghost predicate Leads(items: seq<Item>, c: Comment)
  {
    exists n: nat :: Behind(items, c, n) && c.col <= items[n].col
  }

  /** The place the rules name for a comment. */
  ghost predicate ByRules(items: seq<Item>, scopes: seq<Scope>, c: Comment, t: Target)
  {
    && InRange(items, scopes, t) && t.rank == Rank(items, scopes, t.kind, t.idx)
    && if exists i: nat :: Trails(items, c, i) then t.kind.After? && Trails(items, c, t.idx)
       else if Leads(items, c) then t.kind.Before? && Behind(items, c, t.idx)
       else exists s: nat :: Ends(items, scopes, c, s) && EndsOrLeads(items, scopes, c, s, t)
  }

  ghost predicate EndsOrLeads(items: seq<Item>, scopes: seq<Scope>, c: Comment, s: nat, t: Target)
  {
    if GoesOn(items, scopes, c, s) then t.kind.Before? && Behind(items, c, t.idx) else t.kind.Closing? && t.idx == s
  }

  /** Each comment stands where the rules name, or with its predecessor when that place would print earlier. */
  ghost predicate RulesFollowed(items: seq<Item>, scopes: seq<Scope>, cs: seq<Comment>, targets: seq<Target>)
  {
    |targets| == |cs| && forall k: nat | k < |cs| :: RuleFollowed(items, scopes, cs[k], targets, k)
  }

  ghost predicate RuleFollowed(items: seq<Item>, scopes: seq<Scope>, c: Comment, targets: seq<Target>, k: nat)
    requires k < |targets|
  {
    exists own: Target :: ByRules(items, scopes, c, own) && PlacedAs(own, targets, k)
  }

  predicate PlacedAs(own: Target, targets: seq<Target>, k: nat)
    requires k < |targets|
  {
    targets[k] == if k > 0 && own.rank < targets[k - 1].rank then targets[k - 1] else own
  }

  lemma {:induction false} OutwardBack(scopes: seq<Scope>, way: seq<nat>, k: nat)
    requires ParentsBefore(scopes) && Outward(scopes, way) && k < |way|
    ensures way[k] <= way[0] && (k > 0 ==> way[k] < way[0])
    decreases k
  {
    if k > 0 {
      OutwardBack(scopes, way, k - 1);
      assert scopes[way[k - 1]].parent == Some(way[k - 1 + 1]);
    }
  }

  /** A block is not around another that is around it. */
  lemma SurroundsOnce(scopes: seq<Scope>, s: nat, u: nat)
    requires ParentsBefore(scopes) && Surrounds(scopes, s, u) && Surrounds(scopes, u, s)
    ensures s == u
  {
    var way: seq<nat> :| Outward(scopes, way) && way[0] == u && way[|way| - 1] == s;
    var back: seq<nat> :| Outward(scopes, back) && back[0] == s && back[|back| - 1] == u;
    OutwardBack(scopes, way, |way| - 1);
    OutwardBack(scopes, back, |back| - 1);
  }

  /** The rules name one place at most. */
  lemma RulesAgree(items: seq<Item>, scopes: seq<Scope>, c: Comment, t: Target, u: Target)
    requires ParentsBefore(scopes) && ByRules(items, scopes, c, t) && ByRules(items, scopes, c, u)
    ensures t == u
  {
    hide Surrounds, OnLine, MayEnd, CanEnd, ParentsBefore;
    if !(exists i: nat :: Trails(items, c, i)) && !Leads(items, c) {
      var s: nat :| Ends(items, scopes, c, s) && EndsOrLeads(items, scopes, c, s, t);
      var v: nat :| Ends(items, scopes, c, v) && EndsOrLeads(items, scopes, c, v, u);
      EndsOnce(items, scopes, c, s, v);
    }
  }

  lemma EndsOnce(items: seq<Item>, scopes: seq<Scope>, c: Comment, s: nat, v: nat)
    requires ParentsBefore(scopes) && Ends(items, scopes, c, s) && Ends(items, scopes, c, v)
    ensures s == v
  {
    hide Surrounds, MayEnd;
    if exists u: nat :: MayEnd(items, scopes, c, u) {
      SurroundsOnce(scopes, s, v);
    }
  }

  // ---------------------------------------------------------------- the scans follow the rules

  lemma {:induction false} EnclosesIsSurrounds(scopes: seq<Scope>, outer: nat, inner: nat)
    requires ParentsBefore(scopes) && inner < |scopes|
    ensures Encloses(scopes, outer, Some(inner)) <==> Surrounds(scopes, outer, inner)
    decreases inner
  {
    var up := scopes[inner].parent;
    if up.Some? {
      EnclosesIsSurrounds(scopes, outer, up.value);
    }
    if inner == outer {
      assert Outward(scopes, [inner]);
    } else if up.Some? && Surrounds(scopes, outer, up.value) {
      var way: seq<nat> :| Outward(scopes, way) && way[0] == up.value && way[|way| - 1] == outer;
      OutwardFrom(scopes, inner, way);
    }
    if Surrounds(scopes, outer, inner) && inner != outer {
      var way: seq<nat> :| Outward(scopes, way) && way[0] == inner && way[|way| - 1] == outer;
      OutwardTail(scopes, way);
      assert way[1..][|way[1..]| - 1] == outer;
    }
  }

  lemma OutwardFrom(scopes: seq<Scope>, inner: nat, way: seq<nat>)
    requires Outward(scopes, way) && inner < |scopes| && scopes[inner].parent == Some(way[0])
    ensures Outward(scopes, [inner] + way) && ([inner] + way)[|way|] == way[|way| - 1]
  {
    var more := [inner] + way;
    forall i: nat | i + 1 < |more|
      ensures scopes[more[i]].parent == Some(more[i + 1])
    {
      if i > 0 {
        assert more[i] == way[i - 1] && more[i + 1] == way[i - 1 + 1];
      }
    }
  }

  lemma OutwardTail(scopes: seq<Scope>, way: seq<nat>)
    requires Outward(scopes, way) && |way| > 1
    ensures Outward(scopes, way[1..]) && scopes[way[0]].parent == Some(way[1..][0])
  {
    var less := way[1..];
    assert scopes[way[0]].parent == Some(way[0 + 1]);
    forall i: nat | i + 1 < |less|
      ensures scopes[less[i]].parent == Some(less[i + 1])
    {
      assert less[i] == way[i + 1] && less[i + 1] == way[i + 1 + 1];
    }
  }

  predicate CanEndFrom(scopes: seq<Scope>, inner: nat, c: Comment, u: nat)
    requires ParentsBefore(scopes) && inner < |scopes|
  {
    CanEnd(scopes, u, c) && Encloses(scopes, u, Some(inner))
  }

  /** The scan outward stops at the innermost block that can end here. */
  lemma {:induction false} CloseScopeIs(scopes: seq<Scope>, inner: nat, c: Comment)
    requires ParentsBefore(scopes) && inner < |scopes|
    ensures var s := CloseScope(scopes, Some(inner), c.col);
            if exists u: nat :: CanEndFrom(scopes, inner, c, u) then
              && CanEndFrom(scopes, inner, c, s)
              && forall u: nat | CanEndFrom(scopes, inner, c, u) :: Encloses(scopes, u, Some(s))
            else s == 0
    decreases inner
  {
    var up := scopes[inner].parent;
    if CanEnd(scopes, inner, c) {
      assert CanEndFrom(scopes, inner, c, inner);
    } else if up.Some? {
      CloseScopeIs(scopes, up.value, c);
      assert up == Some(up.value);
      assert CloseScope(scopes, Some(inner), c.col) == CloseScope(scopes, Some(up.value), c.col);
      assert forall u: nat :: CanEndFrom(scopes, inner, c, u) <==> CanEndFrom(scopes, up.value, c, u);
    } else {
      forall u: nat ensures !CanEndFrom(scopes, inner, c, u) {
        assert !Encloses(scopes, u, up);
      }
    }
  }

  lemma FrontIs(items: seq<Item>, c: Comment, p: nat)
    requires SourceOrder(items)
    ensures InFront(items, c, p) <==> CountBefore(items, c.off) == p + 1
  {
    CountIsAll(items, 0, c.off);
    var n := CountBefore(items, c.off);
    hide CountBefore, SourceOrder;
    if InFront(items, c, p) {
      assert p < n && (n - 1 < |items| ==> items[n - 1].off < c.off ==> n - 1 <= p);
    }
  }

  lemma BehindIs(items: seq<Item>, c: Comment, n: nat)
    ensures Behind(items, c, n) <==> n == NextFrom(items, 0, c.off + c.len) && n < |items|
  {
    NextIsFirst(items, 0, c.off + c.len);
    hide NextFrom;
  }

  /** Where the search for the block to end starts. */
  function CloseStart(items: seq<Item>, before: nat): Option<nat>
    requires before <= |items|
  {
    if before == 0 then None else Some(items[before - 1].scope)
  }

  /** The scan for the block finds the one rule 3 names. */
  lemma CloseIsEnds(items: seq<Item>, scopes: seq<Scope>, c: Comment, before: nat)
    requires Scoped(items, scopes) && SourceOrder(items) && before == CountBefore(items, c.off)
    ensures var s := CloseScope(scopes, CloseStart(items, before), c.col);
            s < |scopes| && Ends(items, scopes, c, s)
  {
    CloseScopeIn(scopes, CloseStart(items, before), c.col);
    if before == 0 {
      FileEnds(items, scopes, c);
    } else {
      CloseBehind(items, scopes, c, before - 1);
    }
    hide Ends, CloseScope, CountBefore, SourceOrder, ParentsBefore;
  }

  lemma FileEnds(items: seq<Item>, scopes: seq<Scope>, c: Comment)
    requires ParentsBefore(scopes) && SourceOrder(items) && CountBefore(items, c.off) == 0
    ensures Ends(items, scopes, c, 0) && CloseScope(scopes, None, c.col) == 0
  {
    forall p: nat ensures !InFront(items, c, p) {
      FrontIs(items, c, p);
    }
    hide InFront, Surrounds, CountBefore, SourceOrder;
  }

  lemma CloseBehind(items: seq<Item>, scopes: seq<Scope>, c: Comment, p: nat)
    requires Scoped(items, scopes) && SourceOrder(items) && CountBefore(items, c.off) == p + 1
    ensures Ends(items, scopes, c, CloseScope(scopes, Some(items[p].scope), c.col))
  {
    var inner := items[p].scope;
    var s := CloseScope(scopes, Some(inner), c.col);
    CloseScopeIn(scopes, Some(inner), c.col);
    CloseScopeIs(scopes, inner, c);
    MayEndIs(items, scopes, c, p);
    hide CanEndFrom, MayEnd, Encloses, Surrounds, CloseScope, CountBefore, SourceOrder, ParentsBefore, InFront, CanEnd;
    forall u: nat | MayEnd(items, scopes, c, u)
      ensures Surrounds(scopes, u, s)
    {
      EnclosesIsSurrounds(scopes, u, s);
    }
    assert (exists u: nat :: MayEnd(items, scopes, c, u)) <==> exists u: nat :: CanEndFrom(scopes, inner, c, u);
  }

  lemma MayEndIs(items: seq<Item>, scopes: seq<Scope>, c: Comment, p: nat)
    requires Scoped(items, scopes) && SourceOrder(items) && CountBefore(items, c.off) == p + 1
    ensures forall u: nat :: MayEnd(items, scopes, c, u) <==> CanEndFrom(scopes, items[p].scope, c, u)
  {
    FrontIs(items, c, p);
    hide Surrounds, Encloses, CountBefore, InFront;
    forall u: nat
      ensures MayEnd(items, scopes, c, u) <==> CanEndFrom(scopes, items[p].scope, c, u)
    {
      EnclosesIsSurrounds(scopes, u, items[p].scope);
      forall q: nat ensures InFront(items, c, q) ==> q == p {
        FrontIs(items, c, q);
      }
    }
  }

  lemma NoneTrails(starts: seq<nat>, items: seq<Item>, c: Comment)
    requires SourceOrder(items) && Measured(starts, items) && c.line == LineOf(starts, c.off)
    ensures var own := if c.startsLine then None else LineItem(items, CountBefore(items, c.off), c);
            if own.Some? then Trails(items, c, own.value) else forall i: nat :: !Trails(items, c, i)
  {
    LineItemIsLast(starts, items, c);
    CountIsAll(items, 0, c.off);
    hide LineItem, CountBefore, OnLine, SourceOrder, Measured;
  }

  lemma GoesOnIs(items: seq<Item>, scopes: seq<Scope>, c: Comment, s: nat)
    requires Scoped(items, scopes)
    ensures var next := NextFrom(items, 0, c.off + c.len);
            && (GoesOn(items, scopes, c, s) <==> next < |items| && Encloses(scopes, s, Some(items[next].scope)))
            && (Leads(items, c) <==> next < |items| && c.col <= items[next].col)
  {
    var next := NextFrom(items, 0, c.off + c.len);
    forall n: nat ensures Behind(items, c, n) <==> n == next && n < |items| {
      BehindIs(items, c, n);
    }
    hide Behind, NextFrom, Surrounds, Encloses;
    if next < |items| {
      EnclosesIsSurrounds(scopes, s, items[next].scope);
      assert Behind(items, c, next);
    }
  }

  lemma RuledIf(items: seq<Item>, scopes: seq<Scope>, c: Comment, t: Target, own: Option<nat>, next: nat, s: nat)
    requires InRange(items, scopes, t) && t.rank == Rank(items, scopes, t.kind, t.idx)
    requires if own.Some? then Trails(items, c, own.value) else forall i: nat :: !Trails(items, c, i)
    requires Ends(items, scopes, c, s) && (Leads(items, c) || GoesOn(items, scopes, c, s) ==> Behind(items, c, next))
    requires if own.Some? then t.kind.After? && t.idx == own.value
             else if Leads(items, c) || GoesOn(items, scopes, c, s) then t.kind.Before? && t.idx == next
             else t.kind.Closing? && t.idx == s
    ensures ByRules(items, scopes, c, t)
  {
    hide Trails, Ends, Leads, GoesOn, Behind, Rank;
    if own.None? && !Leads(items, c) {
      assert EndsOrLeads(items, scopes, c, s, t);
    }
  }

  /** What the pass decides for a comment is what the rules name. */
  lemma DecidedByRules(starts: seq<nat>, items: seq<Item>, scopes: seq<Scope>, c: Comment)
    requires Scoped(items, scopes) && SourceOrder(items) && Measured(starts, items) && c.line == LineOf(starts, c.off)
    ensures ByRules(items, scopes, c, Decide(items, scopes, c))
  {
    var before, next := CountBefore(items, c.off), NextFrom(items, 0, c.off + c.len);
    var own := if c.startsLine then None else LineItem(items, before, c);
    var s := CloseScope(scopes, CloseStart(items, before), c.col);
    CloseIsEnds(items, scopes, c, before);
    GoesOnIs(items, scopes, c, s);
    BehindIs(items, c, next);
    NoneTrails(starts, items, c);
    hide CountBefore, NextFrom, CloseScope, LineItem, Encloses, Behind, GoesOn, Leads, Ends, SourceOrder, Measured,
         ParentsBefore, OnLine, Trails, ByRules, LineOf, CountFrom, Scoped, Surrounds, MayEnd, CanEnd;
    RuledIf(items, scopes, c, Decide(items, scopes, c), own, next, s);
  }

  // ---------------------------------------------------------------- the whole pass

  predicate InOrder(cs: seq<Comment>)
  {
    forall i: nat, j: nat | i < j < |cs| :: cs[i].off <= cs[j].off && cs[i].off + cs[i].len <= cs[j].off + cs[j].len
  }

  /** The entries of the chosen targets give every comment back, once and in source order. */
  lemma Conserved(items: seq<Item>, scopes: seq<Scope>, tour: seq<Event>, places: seq<Place>, targets: seq<Target>,
                  slots: seq<Slot>, entries: map<nat, Entry>)
    requires Toured(items, scopes, tour) && Placed(items, scopes, tour, places)
             && SlotsOf(items, scopes, targets, slots)
    requires AllUsable(items, scopes, targets) && Rising(targets) && Holds(entries, slots, |targets|)
    ensures Written(entries, places) == Range(Run(0, |targets|))
  {
    hide Usable, Holds;
    assert |places| == |tour| && places[..|tour|] == places;
    var m := WrittenSoFar(items, scopes, tour, places, targets, slots, entries, |tour|);
    if m < |targets| {
      RankInTour(items, scopes, tour, targets[m]);
      assert false;
    }
  }

  lemma TargetsGood(items: seq<Item>, scopes: seq<Scope>, tour: seq<Event>, cs: seq<Comment>, targets: seq<Target>)
    requires Toured(items, scopes, tour) && Scoped(items, scopes) && |targets| == |cs|
    requires forall k: nat | k < |cs| :: targets[k] == TargetAt(items, scopes, cs, k)
    ensures Rising(targets) && AllUsable(items, scopes, targets)
  {
    hide TargetAt, Usable, Timed, Recorded, Scoped;
    forall k: nat | k < |targets|
      ensures Usable(items, scopes, targets[k])
    {
      TargetUsable(items, scopes, cs, k);
    }
    forall i: nat, j: nat | i <= j < |targets|
      ensures targets[i].rank <= targets[j].rank
    {
      RanksRise(items, scopes, cs, i, j);
    }
  }

  /** The comments lie in the source and in its order. */
  predicate SpansInOrder(src: string, spans: seq<Span>)
  {
    && (forall k: nat | k < |spans| :: spans[k].off <= |src|)
    && forall i: nat, j: nat | i < j < |spans| ::
         spans[i].off <= spans[j].off && spans[i].off + spans[i].len <= spans[j].off + spans[j].len
  }

  ghost predicate CommentsOf(src: string, spans: seq<Span>, cs: seq<Comment>)
    requires SpansInOrder(src, spans)
  {
    |cs| == |spans| && forall k: nat | k < |spans| :: cs[k] == CommentAt(src, LineStarts(src), spans[k])
  }

  /** Line, column and what stands in front of each comment, as the loop of the pass reads them. */
  method MeasureComments(src: string, starts: seq<nat>, spans: seq<Span>) returns (cs: seq<Comment>)
    requires starts == LineStarts(src) && SpansInOrder(src, spans)
    ensures CommentsOf(src, spans, cs) && InOrder(cs)
  {
    hide LineStarts, LineOf, ColOf, StartsItsLine;
    cs := [];
    while |cs| < |spans|
      invariant |cs| <= |spans|
      invariant forall k: nat | k < |cs| :: cs[k] == CommentAt(src, starts, spans[k])
    {
      var s := spans[|cs|];
      var alone := ScanToStart(src, starts, s.off);
      cs := cs + [Comment(s.off, s.len, LineOf(starts, s.off), ColOf(starts, s.off), alone)];
    }
  }

  /** The printer meets the items in source order. */
  ghost predicate LeadsRise(places: seq<Place>)
  {
    forall i: nat, j: nat | i < j < |places| && places[i].Lead? && places[j].Lead? :: places[i].off <= places[j].off
  }

  lemma OrderOfPlaces(items: seq<Item>, scopes: seq<Scope>, tour: seq<Event>, places: seq<Place>)
    requires Toured(items, scopes, tour) && Placed(items, scopes, tour, places) && InTurn(items, |tour|)
    requires LeadsRise(places)
    ensures SourceOrder(items)
  {
    forall i: nat | i < |items|
      ensures items[i].enter < |places| && places[items[i].enter].Lead? && places[items[i].enter].off == items[i].off
    {
      assert tour[items[i].enter] == Enter(i);
      assert PlaceOf(items, scopes, tour[items[i].enter]) == Some(places[items[i].enter]);
    }
    hide Placed, Toured;
  }

  lemma TargetsFollow(starts: seq<nat>, items: seq<Item>, scopes: seq<Scope>, cs: seq<Comment>, targets: seq<Target>)
    requires Scoped(items, scopes) && SourceOrder(items) && Measured(starts, items) && |targets| == |cs|
    requires forall k: nat | k < |cs| :: cs[k].line == LineOf(starts, cs[k].off)
    requires forall k: nat | k < |cs| :: targets[k] == TargetAt(items, scopes, cs, k)
    ensures RulesFollowed(items, scopes, cs, targets)
  {
    hide Decide, ByRules, Scoped, SourceOrder, Measured, LineOf;
    forall k: nat | k < |cs|
      ensures RuleFollowed(items, scopes, cs[k], targets, k)
    {
      DecidedByRules(starts, items, scopes, cs[k]);
      assert PlacedAs(Decide(items, scopes, cs[k]), targets, k);
    }
  }

  /**
    The pass over a whole file. The items and blocks are those of the tree, in the order of the tour; each
    comment is held by the slot of its target, which is the place the rules name or its predecessor's; and writing
    every slot at its place gives all comments back, each once and in source order.
   */
  method Attach(id: nat, off: nat, len: nat, decls: List<Node>, src: string, spans: seq<Span>)
    returns (items: seq<Item>, scopes: seq<Scope>, ghost tour: seq<Event>, cs: seq<Comment>, targets: seq<Target>,
             entries: map<nat, Entry>)
    requires SoundAll(decls) && id !in IdsOfAll(decls) && SpansInOrder(src, spans)
    ensures Toured(items, scopes, tour) && Scoped(items, scopes) && Measured(LineStarts(src), items)
    ensures Placed(items, scopes, tour, FilePlaces(LineStarts(src), id, off, len, decls))
    ensures CommentsOf(src, spans, cs) && |targets| == |spans|
    ensures forall k: nat | k < |spans| :: HeldAt(items, scopes, entries, targets[k], k)
    ensures LeadsRise(FilePlaces(LineStarts(src), id, off, len, decls)) ==> RulesFollowed(items, scopes, cs, targets)
    ensures Written(entries, FilePlaces(LineStarts(src), id, off, len, decls)) == Range(Run(0, |spans|))
  {
    hide Written, TargetAt, Usable, Timed, Recorded, Scoped, Measured, Holds, Placed, Places, Rising, Adjacent, Range,
         HeldAt, LineStarts, LeadsRise, RulesFollowed, LineOf, SourceOrder, InTurn, InOrder, SpansInOrder, ColOf,
         StartsItsLine;
    var starts := BuildLines(src);
    cs := MeasureComments(src, starts, spans);
    var b := new Builder(starts);
    b.WalkFile(id, off, len, decls);
    items, scopes, tour := b.items, b.scopes, b.tour;
    assert Toured(items, scopes, tour);
    TouredScoped(items, scopes, tour);
    targets := ChooseTargets(items, scopes, cs);
    TargetsGood(items, scopes, tour, cs, targets);
    ghost var slots := AllSlots(items, scopes, targets);
    SlotsAdjacent(items, scopes, tour, targets, slots);
    entries := FillEntries(items, scopes, targets, slots);
    Conserved(items, scopes, tour, b.places, targets, slots, entries);
    forall k: nat | k < |cs|
      ensures HeldAt(items, scopes, entries, targets[k], k)
    {
      TargetHolds(items, scopes, targets, slots, entries, k);
    }
    if LeadsRise(b.places) {
      OrderOfPlaces(items, scopes, tour, b.places);
      TargetsFollow(starts, items, scopes, cs, targets);
    }
  }

  /** Comment `k` is in the run of that target's slot. */
  ghost predicate HeldAt(items: seq<Item>, scopes: seq<Scope>, entries: map<nat, Entry>, t: Target, k: nat)
  {
    InRange(items, scopes, t) && In(RunOf(entries, SlotOf(items, scopes, t)), k)
  }

  lemma TargetHolds(items: seq<Item>, scopes: seq<Scope>, targets: seq<Target>, slots: seq<Slot>, entries: map<nat,
                    Entry>, k: nat)
    requires SlotsOf(items, scopes, targets, slots) && Holds(entries, slots, |targets|) && k < |targets|
    ensures HeldAt(items, scopes, entries, targets[k], k)
  {
    hide In, RunOf, SlotOf;
    assert Fits(RunOf(entries, slots[k]), slots[k], slots, |targets|, k);
  }

  ghost function AllSlots(items: seq<Item>, scopes: seq<Scope>, targets: seq<Target>): (slots: seq<Slot>)
    requires AllUsable(items, scopes, targets)
    ensures SlotsOf(items, scopes, targets, slots)
  {
    seq(|targets|, k requires 0 <= k < |targets| => SlotOf(items, scopes, targets[k]))
  }
}
