/**
  The fixity table of one file (grammar/c/wok_resolve.c:290-403 and 477-514): which
  operators it knows, the declaration each one keeps, the closed order, and the
  cycles that order contains.
*/
module FixityTable {
  import opened BitMatrix
  import opened NameIndex

  /** One `tighter than` or `looser than` clause. */
  datatype Rel = Rel(tighter: bool, name: Name)

  /** One `fixity` declaration; `off` is where its name stands in the source. */
  datatype Decl = Decl(name: Name, left: bool, off: nat, rels: seq<Rel>)

  /** `declOff` is -1 for a name known only as someone else's neighbour. */
  datatype FixOp = FixOp(name: Name, left: bool, declOff: int)

  // ---------------------------------------------------------------- what a file declares

  /** The first declaration of a name wins; a later one contributes nothing. */
  ghost predicate Winning(ds: seq<Decl>, d: nat)
  {
    d < |ds| && forall e: nat | e < d :: ds[e].name != ds[d].name
  }

  ghost predicate Mentions(d: Decl, name: Name)
  {
    d.name == name || exists r: nat :: r < |d.rels| && d.rels[r].name == name
  }

  /** `name` is named by a winning declaration among the first `k`. */
  ghost predicate Known(ds: seq<Decl>, k: nat, name: Name)
  {
    exists d: nat {:trigger Winning(ds, d)} :: d < k && Winning(ds, d) && Mentions(ds[d], name)
  }

  ghost predicate Declared(ds: seq<Decl>, k: nat, name: Name)
    requires k <= |ds|
  {
    exists d: nat :: d < k && ds[d].name == name
  }

  /** The table keeps the first declaration's associativity and offset. */
  ghost predicate Keeps(ds: seq<Decl>, k: nat, op: FixOp)
    requires k <= |ds|
  {
    && (forall d: nat {:trigger Winning(ds, d)} | d < k && Winning(ds, d) && ds[d].name == op.name ::
          op.declOff == ds[d].off && op.left == ds[d].left)
    && (!Declared(ds, k, op.name) ==> op.declOff == -1 && op.left)
  }

  /** The edge a relation states: (tighter operator, looser operator). */
  function EdgeOf(d: Decl, r: nat): (Name, Name)
    requires r < |d.rels|
  {
    if d.rels[r].tighter then (d.name, d.rels[r].name) else (d.rels[r].name, d.name)
  }

  ghost predicate StatedBy(d: Decl, j: nat, a: Name, b: Name)
    requires j <= |d.rels|
  {
    exists r: nat :: r < j && EdgeOf(d, r) == (a, b)
  }

  /** A winning declaration among the first `k` states that `a` binds tighter than `b`. */
  ghost predicate DeclaredEdge(ds: seq<Decl>, k: nat, a: Name, b: Name)
  {
    exists d: nat {:trigger Winning(ds, d)} :: d < k && Winning(ds, d) && StatedBy(ds[d], |ds[d].rels|, a, b)
  }

  /** The declared edges, between table indices. */
  ghost function Edges(ds: seq<Decl>, ops: seq<FixOp>): Relation
  {
    set i: nat, j: nat | i < |ops| && j < |ops| && DeclaredEdge(ds, |ds|, ops[i].name, ops[j].name) :: (i, j)
  }

  /** An upper bound on the table: one entry per head and per neighbour. */
  function CapOf(ds: seq<Decl>, k: nat): nat
    requires k <= |ds|
  {
    if k == 0 then 0 else CapOf(ds, k - 1) + 1 + |ds[k - 1].rels|
  }

  lemma {:induction false} CapGrows(ds: seq<Decl>, i: nat, j: nat)
    requires i <= j <= |ds|
    ensures CapOf(ds, i) <= CapOf(ds, j)
    decreases j - i
  {
    if i < j {
      CapGrows(ds, i, j - 1);
    }
  }

  /** Every declared name has a winner at or before its first mention as a head. */
  lemma {:induction false} DeclaredHasWinner(ds: seq<Decl>, k: nat, name: Name) returns (d: nat)
    requires k <= |ds| && Declared(ds, k, name)
    ensures d < k && Winning(ds, d) && ds[d].name == name
    decreases k
  {
    if Declared(ds, k - 1, name) {
      d := DeclaredHasWinner(ds, k - 1, name);
    } else {
      d := k - 1;
    }
  }

  // ---------------------------------------------------------------- pass 1

  ghost predicate Has(ops: seq<FixOp>, name: Name)
  {
    exists t: nat :: t < |ops| && ops[t].name == name
  }

  ghost predicate Distinct(ops: seq<FixOp>)
  {
    forall s: nat, t: nat | s < t < |ops| :: ops[s].name != ops[t].name
  }

  /** A neighbour becomes a placeholder where it is new. */
  ghost function WithNeighbour(ops: seq<FixOp>, name: Name): seq<FixOp>
  {
    if Has(ops, name) then ops else ops + [FixOp(name, true, -1)]
  }

  ghost function WithNeighbours(ops: seq<FixOp>, rels: seq<Rel>, j: nat): seq<FixOp>
    requires j <= |rels|
  {
    if j == 0 then ops else WithNeighbour(WithNeighbours(ops, rels, j - 1), rels[j - 1].name)
  }

  ghost predicate NamedBy(rels: seq<Rel>, j: nat, name: Name)
    requires j <= |rels|
  {
    exists r: nat :: r < j && rels[r].name == name
  }

  lemma {:induction false} NeighboursKeep(ops: seq<FixOp>, rels: seq<Rel>, j: nat)
    requires Distinct(ops) && j <= |rels|
    ensures var out := WithNeighbours(ops, rels, j);
            && Distinct(out) && ops <= out && |out| <= |ops| + j
            && (forall t: nat | |ops| <= t < |out| :: out[t] == FixOp(out[t].name, true, -1))
  {
    if j > 0 {
      NeighboursKeep(ops, rels, j - 1);
    }
  }

  lemma {:induction false} NeighboursNames(ops: seq<FixOp>, rels: seq<Rel>, j: nat, name: Name)
    requires j <= |rels|
    ensures Has(WithNeighbours(ops, rels, j), name) <==> Has(ops, name) || NamedBy(rels, j, name)
  {
    if j > 0 {
      NeighboursNames(ops, rels, j - 1, name);
      var before := WithNeighbours(ops, rels, j - 1);
      var after := WithNeighbours(ops, rels, j);
      assert NamedBy(rels, j, name) <==> NamedBy(rels, j - 1, name) || rels[j - 1].name == name;
      if !Has(before, rels[j - 1].name) {
        assert after[|before|].name == rels[j - 1].name;
        assert Has(before, name) ==> Has(after, name) by {
          assert forall t: nat | t < |before| :: after[t] == before[t];
        }
      }
    }
  }

  /** The table after one head of a winning declaration. */
  ghost function WithHead(ops: seq<FixOp>, d: Decl, at: int): seq<FixOp>
    requires -1 <= at < |ops|
  {
    if at == -1 then ops + [FixOp(d.name, d.left, d.off)]
    else ops[at := FixOp(d.name, d.left, d.off)]
  }

  /** What pass 1 has established after `k` declarations. */
  ghost predicate Numbered(ds: seq<Decl>, k: nat, ops: seq<FixOp>)
    requires k <= |ds|
  {
    && Distinct(ops) && |ops| <= CapOf(ds, k)
    && (forall name :: Has(ops, name) <==> Known(ds, k, name))
    && (forall t: nat | t < |ops| :: Keeps(ds, k, ops[t]))
  }

  /** The table's answer to "where does `name` stand?". */
  ghost predicate Located(ops: seq<FixOp>, name: Name, at: int)
  {
    if at == -1 then !Has(ops, name) else 0 <= at < |ops| && ops[at].name == name
  }

  /** An entry has a declaration of its own exactly when its name was declared. */
  lemma DeclaredIff(ds: seq<Decl>, k: nat, ops: seq<FixOp>, name: Name, at: int)
    requires k <= |ds| && Numbered(ds, k, ops) && Located(ops, name, at)
    ensures Declared(ds, k, name) <==> at != -1 && ops[at].declOff != -1
  {
    if at != -1 {
      assert Keeps(ds, k, ops[at]);
    }
    if Declared(ds, k, name) {
      var w := DeclaredHasWinner(ds, k, name);
      assert Mentions(ds[w], name) && Known(ds, k, name) && Has(ops, name);
    }
  }

  lemma DuplicateStep(ds: seq<Decl>, k: nat, ops: seq<FixOp>)
    requires k < |ds| && Numbered(ds, k, ops) && Declared(ds, k, ds[k].name)
    ensures !Winning(ds, k) && Numbered(ds, k + 1, ops)
  {
    forall name
      ensures Known(ds, k + 1, name) <==> Known(ds, k, name)
      ensures Declared(ds, k + 1, name) <==> Declared(ds, k, name)
    {
    }
    forall t: nat | t < |ops|
      ensures Keeps(ds, k + 1, ops[t])
    {
      assert Keeps(ds, k, ops[t]);
    }
  }

  lemma HeadNames(ops: seq<FixOp>, d: Decl, at: int, name: Name)
    requires -1 <= at < |ops| && (at != -1 ==> ops[at].name == d.name)
    ensures Has(WithHead(ops, d, at), name) <==> Has(ops, name) || name == d.name
  {
    var out := WithHead(ops, d, at);
    if at == -1 {
      assert out[|ops|].name == d.name;
      assert forall t: nat | t < |ops| :: out[t] == ops[t];
    } else {
      assert out[at].name == d.name;
      assert forall t: nat | t < |ops| :: out[t].name == ops[t].name;
    }
  }

  lemma WinnerNames(ds: seq<Decl>, k: nat, ops: seq<FixOp>, at: int, name: Name)
    requires k < |ds| && Winning(ds, k) && -1 <= at < |ops| && (at != -1 ==> ops[at].name == ds[k].name)
    requires Has(ops, name) <==> Known(ds, k, name)
    ensures var rels := ds[k].rels;
            Has(WithNeighbours(WithHead(ops, ds[k], at), rels, |rels|), name) <==> Known(ds, k + 1, name)
  {
    var rels := ds[k].rels;
    HeadNames(ops, ds[k], at, name);
    NeighboursNames(WithHead(ops, ds[k], at), rels, |rels|, name);
    assert Mentions(ds[k], name) <==> name == ds[k].name || NamedBy(rels, |rels|, name);
    assert Known(ds, k + 1, name) <==> Known(ds, k, name) || Mentions(ds[k], name);
  }

  lemma WinnerKeeps(ds: seq<Decl>, k: nat, op: FixOp)
    requires k < |ds| && Winning(ds, k)
    requires if op.name == ds[k].name then op == FixOp(op.name, ds[k].left, ds[k].off) else Keeps(ds, k, op)
    ensures Keeps(ds, k + 1, op)
  {
    if op.name == ds[k].name {
      assert ds[k].name == op.name;
    } else {
      assert Declared(ds, k + 1, op.name) <==> Declared(ds, k, op.name);
    }
  }

  /** A name the table did not hold was never declared. */
  lemma UnknownUndeclared(ds: seq<Decl>, k: nat, ops: seq<FixOp>, name: Name)
    requires k <= |ds| && Numbered(ds, k, ops) && !Has(ops, name)
    ensures !Declared(ds, k, name)
  {
    DeclaredIff(ds, k, ops, name, -1);
  }

  lemma WinnerStep(ds: seq<Decl>, k: nat, ops: seq<FixOp>, at: int)
    requires k < |ds| && Numbered(ds, k, ops) && Winning(ds, k)
    requires Located(ops, ds[k].name, at)
    ensures Numbered(ds, k + 1, WithNeighbours(WithHead(ops, ds[k], at), ds[k].rels, |ds[k].rels|))
  {
    var rels := ds[k].rels;
    var head := WithHead(ops, ds[k], at);
    assert Distinct(head);
    NeighboursKeep(head, rels, |rels|);
    var out := WithNeighbours(head, rels, |rels|);
    forall name
      ensures Has(out, name) <==> Known(ds, k + 1, name)
    {
      WinnerNames(ds, k, ops, at, name);
    }
    forall t: nat | t < |out|
      ensures Keeps(ds, k + 1, out[t])
    {
      EntryKept(ds, k, ops, at, t);
    }
  }

  lemma EntryKept(ds: seq<Decl>, k: nat, ops: seq<FixOp>, at: int, t: nat)
    requires k < |ds| && Numbered(ds, k, ops) && Winning(ds, k)
    requires Located(ops, ds[k].name, at)
    requires t < |WithNeighbours(WithHead(ops, ds[k], at), ds[k].rels, |ds[k].rels|)|
    ensures Keeps(ds, k + 1, WithNeighbours(WithHead(ops, ds[k], at), ds[k].rels, |ds[k].rels|)[t])
  {
    var rels := ds[k].rels;
    var head := WithHead(ops, ds[k], at);
    assert Distinct(head);
    NeighboursKeep(head, rels, |rels|);
    var out := WithNeighbours(head, rels, |rels|);
    var slot := if at == -1 then |ops| else at;
    assert head[slot] == FixOp(ds[k].name, ds[k].left, ds[k].off);
    if t < |head| {
      assert out[t] == head[t];
      if t != slot {
        assert head[t] == ops[t] && head[t].name != head[slot].name;
      }
    } else {
      assert out[t].name != out[slot].name;
      forall u: nat | u < |ops|
        ensures ops[u].name != out[t].name
      {
        assert out[u].name == head[u].name == ops[u].name;
      }
      UnknownUndeclared(ds, k, ops, out[t].name);
      assert Keeps(ds, k, out[t]);
    }
    WinnerKeeps(ds, k, out[t]);
  }

  // ---------------------------------------------------------------- the table in its index

  /** The map `m` sends each operator's name to its index. */
  ghost predicate Mirrors(m: map<Name, nat>, ops: seq<FixOp>)
  {
    && |m| == |ops|
    && (forall t: nat | t < |ops| :: ops[t].name in m && m[ops[t].name] == t)
    && (forall x | x in m :: m[x] < |ops| && ops[m[x]].name == x)
  }

  lemma MirrorHas(m: map<Name, nat>, ops: seq<FixOp>, name: Name)
    requires Mirrors(m, ops)
    ensures name in m <==> Has(ops, name)
    ensures Distinct(ops)
  {
    if name in m {
      assert ops[m[name]].name == name;
    }
  }

  lemma MirrorEmpty(m: map<Name, nat>)
    requires m == map[]
    ensures Mirrors(m, [])
  {
  }

  lemma MirrorAppend(m: map<Name, nat>, ops: seq<FixOp>, op: FixOp)
    requires Mirrors(m, ops) && op.name !in m
    ensures Mirrors(m[op.name := |ops|], ops + [op])
  {
  }

  /** A neighbour gets a placeholder unless the table already holds it. */
  method AddNeighbour(idx: NameIdx, ops: seq<FixOp>, name: Name) returns (ops2: seq<FixOp>)
    requires idx.Valid() && Mirrors(idx.Contents, ops) && |ops| < idx.maxEntries
    modifies idx, idx.key, idx.entry
    ensures idx.Valid() && Mirrors(idx.Contents, ops2) && ops2 == WithNeighbour(ops, name)
  {
    var at := idx.Find(name);
    MirrorHas(idx.Contents, ops, name);
    if at == -1 {
      var op := FixOp(name, true, -1);
      MirrorAppend(idx.Contents, ops, op);
      idx.Add(name, |ops|);
      ops2 := ops + [op];
    } else {
      ops2 := ops;
    }
  }

  method AddNeighbours(idx: NameIdx, ops: seq<FixOp>, rels: seq<Rel>) returns (ops2: seq<FixOp>)
    requires idx.Valid() && Mirrors(idx.Contents, ops) && |ops| + |rels| <= idx.maxEntries
    modifies idx, idx.key, idx.entry
    ensures idx.Valid() && Mirrors(idx.Contents, ops2) && ops2 == WithNeighbours(ops, rels, |rels|)
  {
    ops2 := ops;
    MirrorHas(idx.Contents, ops, []);
    for j := 0 to |rels|
      invariant idx.Valid() && Mirrors(idx.Contents, ops2) && ops2 == WithNeighbours(ops, rels, j)
    {
      NeighboursKeep(ops, rels, j);
      ops2 := AddNeighbour(idx, ops2, rels[j].name);
    }
  }

  /** The head of a winning declaration: a placeholder becomes a declared operator, or a new entry is made. */
  method AddHead(idx: NameIdx, ops: seq<FixOp>, d: Decl, at: int) returns (ops2: seq<FixOp>)
    requires idx.Valid() && Mirrors(idx.Contents, ops) && |ops| < idx.maxEntries
    requires at == if d.name in idx.Contents then idx.Contents[d.name] else -1
    modifies idx, idx.key, idx.entry
    ensures idx.Valid() && Mirrors(idx.Contents, ops2) && ops2 == WithHead(ops, d, at)
  {
    var op := FixOp(d.name, d.left, d.off);
    if at != -1 {
      ops2 := ops[at := op];
    } else {
      MirrorAppend(idx.Contents, ops, op);
      idx.Add(d.name, |ops|);
      ops2 := ops + [op];
    }
  }

  /** One declaration of pass 1; a redeclaration changes nothing and is reported. */
  method Declare(idx: NameIdx, ops: seq<FixOp>, d: Decl) returns (ops2: seq<FixOp>, at: int, duplicate: bool)
    requires idx.Valid() && Mirrors(idx.Contents, ops) && |ops| + 1 + |d.rels| <= idx.maxEntries
    modifies idx, idx.key, idx.entry
    ensures idx.Valid() && Mirrors(idx.Contents, ops2) && Located(ops, d.name, at)
    ensures duplicate <==> at != -1 && ops[at].declOff != -1
    ensures ops2 == if duplicate then ops else WithNeighbours(WithHead(ops, d, at), d.rels, |d.rels|)
  {
    at := idx.Find(d.name);
    MirrorHas(idx.Contents, ops, d.name);
    duplicate := at != -1 && ops[at].declOff != -1;
    if duplicate {
      ops2 := ops;
    } else {
      ops2 := AddHead(idx, ops, d, at);
      ops2 := AddNeighbours(idx, ops2, d.rels);
    }
  }

  lemma DeclareStep(ds: seq<Decl>, k: nat, ops: seq<FixOp>, at: int)
    requires k < |ds| && Numbered(ds, k, ops) && Located(ops, ds[k].name, at)
    ensures (at != -1 && ops[at].declOff != -1) <==> !Winning(ds, k)
    ensures Numbered(ds, k + 1, if at != -1 && ops[at].declOff != -1 then ops
                                else WithNeighbours(WithHead(ops, ds[k], at), ds[k].rels, |ds[k].rels|))
  {
    DeclaredIff(ds, k, ops, ds[k].name, at);
    assert Declared(ds, k, ds[k].name) <==> !Winning(ds, k);
    if Declared(ds, k, ds[k].name) {
      DuplicateStep(ds, k, ops);
    } else {
      WinnerStep(ds, k, ops, at);
    }
  }

  lemma NumberedStart(ds: seq<Decl>)
    ensures Numbered(ds, 0, [])
  {
  }

  lemma Room(ds: seq<Decl>, k: nat, ops: seq<FixOp>)
    requires k < |ds| && Numbered(ds, k, ops)
    ensures |ops| + 1 + |ds[k].rels| <= CapOf(ds, |ds|)
  {
    CapGrows(ds, k + 1, |ds|);
  }

  /** The state of pass 1 after `k` declarations. */
  ghost predicate Progress(ds: seq<Decl>, k: nat, m: map<Name, nat>, ops: seq<FixOp>, duplicates: seq<nat>)
    requires k <= |ds|
  {
    && Mirrors(m, ops) && Numbered(ds, k, ops)
    && forall d: nat :: d in duplicates <==> d < k && !Winning(ds, d)
  }

  lemma ProgressStart(ds: seq<Decl>, m: map<Name, nat>)
    requires m == map[]
    ensures Progress(ds, 0, m, [], [])
  {
    MirrorEmpty(m);
    NumberedStart(ds);
  }

  method NumberOne(ds: seq<Decl>, k: nat, idx: NameIdx, ops: seq<FixOp>, duplicates: seq<nat>)
      returns (ops2: seq<FixOp>, duplicates2: seq<nat>)
    requires k < |ds| && idx.Valid() && idx.maxEntries == CapOf(ds, |ds|)
    requires Progress(ds, k, idx.Contents, ops, duplicates)
    modifies idx, idx.key, idx.entry
    ensures idx.Valid() && Progress(ds, k + 1, idx.Contents, ops2, duplicates2)
  {
    Room(ds, k, ops);
    var at, duplicate;
    ops2, at, duplicate := Declare(idx, ops, ds[k]);
    duplicates2 := if duplicate then duplicates + [k] else duplicates;
    DeclareStep(ds, k, ops, at);
    DuplicatesStep(ds, k, duplicates, duplicate);
  }

  lemma DuplicatesStep(ds: seq<Decl>, k: nat, duplicates: seq<nat>, duplicate: bool)
    requires k < |ds| && (duplicate <==> !Winning(ds, k))
    requires forall d: nat :: d in duplicates <==> d < k && !Winning(ds, d)
    ensures var duplicates2 := if duplicate then duplicates + [k] else duplicates;
            forall d: nat :: d in duplicates2 <==> d < k + 1 && !Winning(ds, d)
  {
  }

  /** Pass 1: every operator named by a winning declaration gets an index; a redeclaration is reported. */
  method NumberOperators(ds: seq<Decl>, idx: NameIdx) returns (ops: seq<FixOp>, duplicates: seq<nat>)
    requires idx.Valid() && idx.Contents == map[] && idx.maxEntries == CapOf(ds, |ds|)
    modifies idx, idx.key, idx.entry
    ensures idx.Valid() && Progress(ds, |ds|, idx.Contents, ops, duplicates)
  {
    hide Progress;
    ops, duplicates := [], [];
    ProgressStart(ds, idx.Contents);
    for k := 0 to |ds|
      invariant idx.Valid() && Progress(ds, k, idx.Contents, ops, duplicates)
    {
      ops, duplicates := NumberOne(ds, k, idx, ops, duplicates);
    }
  }

  // ---------------------------------------------------------------- pass 2 and the closure

  /** The bits set so far: the edges of the first `k` declarations, and the first `j` of declaration `k`. */
  ghost predicate Stated(ds: seq<Decl>, k: nat, j: nat, a: Name, b: Name)
    requires k < |ds| && j <= |ds[k].rels|
  {
    DeclaredEdge(ds, k, a, b) || StatedBy(ds[k], j, a, b)
  }

  lemma StatedStep(ds: seq<Decl>, k: nat, j: nat, a: Name, b: Name)
    requires k < |ds| && j < |ds[k].rels|
    ensures Stated(ds, k, j + 1, a, b) <==> Stated(ds, k, j, a, b) || EdgeOf(ds[k], j) == (a, b)
  {
  }

  lemma EdgeStep(ds: seq<Decl>, k: nat, a: Name, b: Name)
    requires k < |ds|
    ensures DeclaredEdge(ds, k + 1, a, b) <==>
              if Winning(ds, k) then Stated(ds, k, |ds[k].rels|, a, b) else DeclaredEdge(ds, k, a, b)
  {
    if Winning(ds, k) && StatedBy(ds[k], |ds[k].rels|, a, b) {
      assert DeclaredEdge(ds, k + 1, a, b);
    }
    if DeclaredEdge(ds, k, a, b) {
      assert DeclaredEdge(ds, k + 1, a, b);
    }
  }

  /** Distinct declarations stand at distinct places, so the kept offset tells the winner from a duplicate. */
  lemma WinnerByOffset(ds: seq<Decl>, ops: seq<FixOp>, k: nat, at: nat)
    requires forall d: nat, e: nat | d < e < |ds| :: ds[d].off != ds[e].off
    requires Numbered(ds, |ds|, ops) && k < |ds| && at < |ops| && ops[at].name == ds[k].name
    ensures ops[at].declOff == ds[k].off <==> Winning(ds, k)
  {
    assert Keeps(ds, |ds|, ops[at]);
    assert Declared(ds, |ds|, ds[k].name);
    var w := DeclaredHasWinner(ds, |ds|, ds[k].name);
    assert ops[at].declOff == ds[w].off;
    assert w != k ==> !Winning(ds, k);
  }

  lemma HeadInTable(ds: seq<Decl>, ops: seq<FixOp>, k: nat)
    requires Numbered(ds, |ds|, ops) && k < |ds|
    ensures Has(ops, ds[k].name)
  {
    assert Declared(ds, |ds|, ds[k].name);
    var w := DeclaredHasWinner(ds, |ds|, ds[k].name);
    assert Mentions(ds[w], ds[k].name) && Known(ds, |ds|, ds[k].name);
  }

  lemma NeighbourInTable(ds: seq<Decl>, ops: seq<FixOp>, k: nat, r: nat)
    requires Numbered(ds, |ds|, ops) && Winning(ds, k) && r < |ds[k].rels|
    ensures Has(ops, ds[k].rels[r].name)
  {
    assert Mentions(ds[k], ds[k].rels[r].name) && Known(ds, |ds|, ds[k].rels[r].name);
  }

  ghost predicate HasStated(ds: seq<Decl>, k: nat, j: nat, ops: seq<FixOp>, m: Matrix)
    requires k < |ds| && j <= |ds[k].rels| && m.Valid() && m.n == |ops|
    reads m, m.edge
  {
    forall a: nat, b: nat | a < |ops| && b < |ops| ::
      m.Bit(a, b) <==> Stated(ds, k, j, ops[a].name, ops[b].name)
  }

  method StateEdge(ds: seq<Decl>, k: nat, j: nat, ops: seq<FixOp>, m: Matrix, head: nat, nb: nat)
    requires k < |ds| && j < |ds[k].rels| && Distinct(ops)
    requires m.Valid() && m.n == |ops| && HasStated(ds, k, j, ops, m)
    requires head < |ops| && ops[head].name == ds[k].name
    requires nb < |ops| && ops[nb].name == ds[k].rels[j].name
    modifies m.edge
    ensures HasStated(ds, k, j + 1, ops, m)
  {
    var tighter := ds[k].rels[j].tighter;
    var from, to := if tighter then head else nb, if tighter then nb else head;
    m.Set(from, to);
    forall a: nat, b: nat | a < |ops| && b < |ops|
      ensures m.Bit(a, b) <==> Stated(ds, k, j + 1, ops[a].name, ops[b].name)
    {
      StatedStep(ds, k, j, ops[a].name, ops[b].name);
      assert a == from <==> ops[a].name == ops[from].name;
      assert b == to <==> ops[b].name == ops[to].name;
    }
  }

  /** The edges of one winning declaration. */
  method StateEdges(ds: seq<Decl>, k: nat, idx: NameIdx, ops: seq<FixOp>, m: Matrix, head: nat)
    requires idx.Valid() && Mirrors(idx.Contents, ops) && Numbered(ds, |ds|, ops)
    requires m.Valid() && m.n == |ops| && Winning(ds, k)
    requires head < |ops| && ops[head].name == ds[k].name
    requires HasStated(ds, k, 0, ops, m)
    modifies m.edge
    ensures HasStated(ds, k, |ds[k].rels|, ops, m)
  {
    for j := 0 to |ds[k].rels|
      invariant idx.Valid() && HasStated(ds, k, j, ops, m)
    {
      NeighbourInTable(ds, ops, k, j);
      MirrorHas(idx.Contents, ops, ds[k].rels[j].name);
      var nb := idx.Find(ds[k].rels[j].name);
      StateEdge(ds, k, j, ops, m, head, nb);
    }
  }

  ghost predicate HasEdges(ds: seq<Decl>, k: nat, ops: seq<FixOp>, m: Matrix)
    requires k <= |ds| && m.Valid() && m.n == |ops|
    reads m, m.edge
  {
    forall i: nat, j: nat | i < |ops| && j < |ops| ::
      m.Bit(i, j) <==> DeclaredEdge(ds, k, ops[i].name, ops[j].name)
  }

  lemma EdgesAreStated(ds: seq<Decl>, k: nat, ops: seq<FixOp>, m: Matrix)
    requires k < |ds| && m.Valid() && m.n == |ops| && HasEdges(ds, k, ops, m)
    ensures HasStated(ds, k, 0, ops, m)
  {
    hide DeclaredEdge;
  }

  lemma StatedAreEdges(ds: seq<Decl>, k: nat, ops: seq<FixOp>, m: Matrix)
    requires k < |ds| && m.Valid() && m.n == |ops|
    requires if Winning(ds, k) then HasStated(ds, k, |ds[k].rels|, ops, m) else HasEdges(ds, k, ops, m)
    ensures HasEdges(ds, k + 1, ops, m)
  {
    forall i: nat, j: nat | i < |ops| && j < |ops|
      ensures m.Bit(i, j) <==> DeclaredEdge(ds, k + 1, ops[i].name, ops[j].name)
    {
      EdgeStep(ds, k, ops[i].name, ops[j].name);
      hide DeclaredEdge, Stated, Winning;
    }
  }

  /** One declaration of pass 2: a dropped duplicate's edges die with it. */
  method StateOne(ds: seq<Decl>, k: nat, idx: NameIdx, ops: seq<FixOp>, m: Matrix)
    requires k < |ds| && forall d: nat, e: nat | d < e < |ds| :: ds[d].off != ds[e].off
    requires idx.Valid() && Mirrors(idx.Contents, ops) && Numbered(ds, |ds|, ops)
    requires m.Valid() && m.n == |ops| && HasEdges(ds, k, ops, m)
    modifies m.edge
    ensures HasEdges(ds, k + 1, ops, m)
  {
    hide Numbered, HasEdges, HasStated;
    HeadInTable(ds, ops, k);
    MirrorHas(idx.Contents, ops, ds[k].name);
    var head := idx.Find(ds[k].name);
    WinnerByOffset(ds, ops, k, head);
    if ops[head].declOff == ds[k].off {
      EdgesAreStated(ds, k, ops, m);
      StateEdges(ds, k, idx, ops, m, head);
    }
    StatedAreEdges(ds, k, ops, m);
  }

  /** Pass 2: the edges of every winning declaration, and of no other. */
  method StateAll(ds: seq<Decl>, idx: NameIdx, ops: seq<FixOp>, m: Matrix)
    requires forall d: nat, e: nat | d < e < |ds| :: ds[d].off != ds[e].off
    requires idx.Valid() && Mirrors(idx.Contents, ops) && Numbered(ds, |ds|, ops)
    requires m.Valid() && m.n == |ops| && HasEdges(ds, 0, ops, m)
    modifies m.edge
    ensures HasEdges(ds, |ds|, ops, m)
  {
    for k := 0 to |ds|
      invariant idx.Valid() && HasEdges(ds, k, ops, m)
    {
      StateOne(ds, k, idx, ops, m);
    }
  }

  /**
    The whole table. Bit (i, j) ends set exactly when a non-empty path of edges stated by
    winning declarations leads from operator i to operator j.
   */
  method BuildFixity(ds: seq<Decl>) returns (ops: seq<FixOp>, m: Matrix, duplicates: seq<nat>)
    requires forall d: nat, e: nat | d < e < |ds| :: ds[d].off != ds[e].off
    ensures Numbered(ds, |ds|, ops)
    ensures m.Valid() && m.n == |ops|
    ensures forall i: nat, j: nat | i < |ops| && j < |ops| :: m.Bit(i, j) <==> Reaches(Edges(ds, ops), i, j)
    ensures forall d: nat :: d in duplicates <==> d < |ds| && !Winning(ds, d)
  {
    var cap := 0;
    for k := 0 to |ds|
      invariant cap == CapOf(ds, k)
    {
      cap := cap + 1 + |ds[k].rels|;
    }
    var idx := new NameIdx(cap);
    ops, duplicates := NumberOperators(ds, idx);
    m := new Matrix(|ops|);
    StateAll(ds, idx, ops, m);
    assert m.Is(Edges(ds, ops));
    m.Close(Edges(ds, ops));
  }

  // ---------------------------------------------------------------- cycles

  ghost predicate SameCycle(e: Relation, i: nat, j: nat)
  {
    Reaches(e, i, j) && Reaches(e, j, i)
  }

  /** The operator a cycle is reported at: the lowest index of its strongly connected component. */
  ghost predicate Leads(e: Relation, i: nat)
  {
    Reaches(e, i, i) && forall j: nat | j < i :: !SameCycle(e, i, j)
  }

  /** Reported once per cycle, at its first member. */
  method CheckCycles(m: Matrix, ghost e: Relation) returns (reported: seq<nat>)
    requires m.Valid()
    requires forall i: nat, j: nat | i < m.n && j < m.n :: m.Bit(i, j) <==> Reaches(e, i, j)
    ensures forall i: nat :: i in reported <==> i < m.n && Leads(e, i)
    ensures forall x: nat, y: nat | x < y < |reported| :: reported[x] < reported[y]
  {
    reported := [];
    for i := 0 to m.n
      invariant forall x: nat :: x in reported <==> x < i && Leads(e, x)
      invariant forall x: nat | x < |reported| :: reported[x] < i
      invariant forall x: nat, y: nat | x < y < |reported| :: reported[x] < reported[y]
    {
      if m.Bit(i, i) {
        var first := true;
        for j := 0 to i
          invariant first <==> forall x: nat | x < j :: !SameCycle(e, i, x)
        {
          assert SameCycle(e, i, j) <==> m.Bit(i, j) && m.Bit(j, i);
          if m.Bit(i, j) && m.Bit(j, i) {
            ReachesTransitive(e, j, i, j);
          }
          if m.Bit(j, j) && m.Bit(i, j) && m.Bit(j, i) {
            first := false;
          }
        }
        if first {
          reported := reported + [i];
        }
      }
    }
  }

  /** Every component that contains a cycle has exactly one reported member, its lowest. */
  lemma {:induction false} OneReportPerCycle(e: Relation, i: nat) returns (j: nat)
    requires Reaches(e, i, i)
    ensures j <= i && Leads(e, j) && SameCycle(e, i, j)
    ensures forall k: nat | Leads(e, k) && SameCycle(e, i, k) :: k == j
    decreases i
  {
    if x: nat :| x < i && SameCycle(e, i, x) {
      ReachesTransitive(e, x, i, x);
      j := OneReportPerCycle(e, x);
      CycleJoins(e, i, x, j);
      forall k: nat | Leads(e, k) && SameCycle(e, i, k)
        ensures k == j
      {
        CycleJoins(e, x, i, k);
      }
    } else {
      j := i;
      forall k: nat | Leads(e, k) && SameCycle(e, i, k)
        ensures k == j
      {
        assert SameCycle(e, k, i);
      }
    }
  }

  lemma CycleJoins(e: Relation, i: nat, j: nat, k: nat)
    requires SameCycle(e, i, j) && SameCycle(e, j, k)
    ensures SameCycle(e, i, k)
  {
    ReachesTransitive(e, i, j, k);
    ReachesTransitive(e, k, j, i);
  }

  /** No report means the closed order is a strict partial order. */
  lemma AcyclicIsStrict(e: Relation, n: nat)
    requires forall i: nat :: i < n ==> !Leads(e, i)
    ensures forall i: nat | i < n :: !Reaches(e, i, i)
  {
    forall i: nat | i < n
      ensures !Reaches(e, i, i)
    {
      if Reaches(e, i, i) {
        var j := OneReportPerCycle(e, i);
      }
    }
  }
}
