/**
  Operator chains: the resolver's local shield rule (grammar/c/wok_resolve.c:640-692) and
  the reorder pass's greedy scan and recursive split (grammar/c/wok_reorder.c:59-336).
  The two are proved equivalent, and the split is proved to build the one tree the order
  and the associativities allow.
*/
module Chain {
  import opened BitMatrix
  import opened FixityTable
  import opened NameIndex

  /** The table both passes consult: operators, and the closed order between their indices. */
  datatype Table = Table(ops: seq<FixOp>, tighter: Relation)

  predicate Tighter(t: Table, a: nat, b: nat)
  {
    (a, b) in t.tighter
  }

  /** What a cycle-free closed table guarantees: a strict partial order over distinct names. */
  ghost predicate Strict(t: Table)
  {
    && Distinct(t.ops)
    && (forall a: nat :: !Tighter(t, a, a))
    && (forall a: nat, b: nat, c: nat :: Tighter(t, a, b) && Tighter(t, b, c) ==> Tighter(t, a, c))
  }

  /** A built table with no cycle reported is strict. */
  lemma BuiltTableIsStrict(ds: seq<Decl>, ops: seq<FixOp>, closed: Relation)
    requires Numbered(ds, |ds|, ops)
    requires forall i: nat, j: nat :: (i, j) in closed <==> i < |ops| && j < |ops| && Reaches(Edges(ds, ops), i, j)
    requires forall i: nat :: i < |ops| ==> !Leads(Edges(ds, ops), i)
    ensures Strict(Table(ops, closed))
  {
    var t := Table(ops, closed);
    AcyclicIsStrict(Edges(ds, ops), |ops|);
    forall a: nat, b: nat, c: nat | Tighter(t, a, b) && Tighter(t, b, c)
      ensures Tighter(t, a, c)
    {
      ReachesTransitive(Edges(ds, ops), a, b, c);
    }
  }

  // ---------------------------------------------------------------- the shield rule

  predicate Related(t: Table, a: nat, b: nat)
  {
    a == b || Tighter(t, a, b) || Tighter(t, b, a)
  }

  /** An occurrence between `i` and `j` that is unknown, or strictly looser than both. */
  predicate Shields(t: Table, ops: seq<int>, i: nat, j: nat, k: nat)
    requires i < |ops| && j < |ops| && k < |ops| && ops[i] >= 0 && ops[j] >= 0
  {
    ops[k] < 0 || (Tighter(t, ops[i], ops[k]) && Tighter(t, ops[j], ops[k]))
  }

  /** Two known, unrelated occurrences with nothing looser between them; -1 marks an unknown operator. */
  ghost predicate Fault(t: Table, ops: seq<int>, i: nat, j: nat)
  {
    && i < j < |ops| && ops[i] >= 0 && ops[j] >= 0
    && !Related(t, ops[i], ops[j])
    && forall k: nat | i < k < j :: !Shields(t, ops, i, j, k)
  }

  ghost predicate ChainOk(t: Table, ops: seq<int>)
  {
    forall i: nat, j: nat :: !Fault(t, ops, i, j)
  }

  datatype Option<T> = None | Some(value: T)

  /** Reports the first faulty pair, in source order of its left occurrence, or nothing. */
  method CheckChain(t: Table, ops: seq<int>) returns (fault: Option<(nat, nat)>)
    requires forall i: nat | i < |ops| :: ops[i] < |t.ops|
    ensures fault.None? <==> |t.ops| == 0 || ChainOk(t, ops)
    ensures fault.Some? ==>
              && Fault(t, ops, fault.value.0, fault.value.1)
              && forall i: nat, j: nat | Fault(t, ops, i, j) ::
                   fault.value.0 < i || (fault.value.0 == i && fault.value.1 <= j)
  {
    if |ops| < 2 || |t.ops| == 0 {
      return None;
    }
    for i := 0 to |ops|
      invariant forall x: nat, y: nat | x < i :: !Fault(t, ops, x, y)
    {
      if ops[i] >= 0 {
        for j := i + 1 to |ops|
          invariant forall y: nat | y < j :: !Fault(t, ops, i, y)
        {
          if ops[j] >= 0 && !Related(t, ops[i], ops[j]) {
            var shielded := false;
            for k := i + 1 to j
              invariant shielded <==> exists x: nat :: i < x < k && Shields(t, ops, i, j, x)
            {
              if Shields(t, ops, i, j, k) {
                shielded := true;
              }
            }
            if !shielded {
              assert Fault(t, ops, i, j);
              return Some((i, j));
            }
          }
        }
      }
    }
    return None;
  }

  // ---------------------------------------------------------------- the tree

  datatype ChainOp = ChainOp(op: Name, backtick: bool, rhs: Expr)

  /** Every node that is not a chain is a tag and its children. */
  datatype Expr = Node(tag: nat, kids: seq<Expr>) | Chain(head: Expr, ops: seq<ChainOp>)

  /** One flat chain slot, its operator's table index resolved once. */
  datatype Tail = Tail(op: Name, backtick: bool, rhs: Expr, idx: nat)

  datatype Cmp = TighterThan | LooserThan | Equal | Incomparable

  function CompareOps(t: Table, a: Tail, b: Tail): Cmp
  {
    if a.op == b.op then Equal
    else if Tighter(t, a.idx, b.idx) then TighterThan
    else if Tighter(t, b.idx, a.idx) then LooserThan
    else Incomparable
  }

  predicate Resolved(t: Table, tails: seq<Tail>)
  {
    forall i: nat | i < |tails| :: tails[i].idx < |t.ops| && t.ops[tails[i].idx].name == tails[i].op
  }

  /** The running loosest after the first `k` occurrences; None after an incomparable pair. */
  function Scan(t: Table, tails: seq<Tail>, k: nat): (r: Option<nat>)
    requires 1 <= k <= |tails| && Resolved(t, tails)
    ensures r.Some? ==> r.value < k
  {
    if k == 1 then Some(0)
    else match Scan(t, tails, k - 1)
      case None => None
      case Some(best) =>
        match CompareOps(t, tails[k - 1], tails[best])
        case TighterThan => Some(best)
        case LooserThan => Some(k - 1)
        case Equal => if t.ops[tails[best].idx].left then Some(k - 1) else Some(best)
        case Incomparable => None
  }

  lemma {:induction false} ScanNone(t: Table, tails: seq<Tail>, j: nat, k: nat)
    requires 1 <= j <= k <= |tails| && Resolved(t, tails)
    requires Scan(t, tails, j).None?
    ensures Scan(t, tails, k).None?
    decreases k - j
  {
    if j < k {
      ScanNone(t, tails, j + 1, k);
    }
  }

  method FindLoosest(t: Table, tails: seq<Tail>) returns (r: Option<nat>)
    requires |tails| > 0 && Resolved(t, tails)
    ensures r == Scan(t, tails, |tails|)
  {
    var best := 0;
    for i := 1 to |tails|
      invariant best < |tails| && Scan(t, tails, i) == Some(best)
    {
      match CompareOps(t, tails[i], tails[best])
      case TighterThan =>
      case LooserThan =>
        best := i;
      case Equal =>
        if t.ops[tails[best].idx].left {
          best := i;
        }
      case Incomparable =>
        ScanNone(t, tails, i + 1, |tails|);
        return None;
    }
    return Some(best);
  }

  /** Split at the loosest, recurse into both halves, rebuild; the flag is false once a scan got stuck. */
  function Split(t: Table, h: Expr, tails: seq<Tail>): (Expr, bool)
    requires Resolved(t, tails)
    decreases |tails|
  {
    if |tails| == 0 then (h, true)
    else match Scan(t, tails, |tails|)
      case None => (h, false)
      case Some(idx) =>
        var left := Split(t, h, tails[..idx]);
        var at := tails[idx];
        var right := Split(t, at.rhs, tails[idx + 1..]);
        (Chain(left.0, [ChainOp(at.op, at.backtick, right.0)]), left.1 && right.1)
  }

  function Idx(tails: seq<Tail>): (r: seq<int>)
    ensures |r| == |tails| && forall i: nat | i < |tails| :: r[i] == tails[i].idx
  {
    seq(|tails|, i requires 0 <= i < |tails| => tails[i].idx)
  }

  // ---------------------------------------------------------------- the scan finds the loosest

  predicate AtLeastAsTight(t: Table, a: nat, b: nat)
  {
    a == b || Tighter(t, a, b)
  }

  /** `best` is loosest among the first `k`, and the occurrence its associativity picks. */
  ghost predicate Loosest(t: Table, tails: seq<Tail>, k: nat, best: nat)
    requires best < k <= |tails| && Resolved(t, tails)
  {
    && (forall i: nat | i < k :: AtLeastAsTight(t, tails[i].idx, tails[best].idx))
    && (forall i: nat | i < k && tails[i].idx == tails[best].idx ::
          if t.ops[tails[best].idx].left then i <= best else best <= i)
  }

  lemma SameOpSameIndex(t: Table, tails: seq<Tail>, i: nat, j: nat)
    requires Strict(t) && Resolved(t, tails) && i < |tails| && j < |tails|
    ensures tails[i].op == tails[j].op <==> tails[i].idx == tails[j].idx
  {
  }

  lemma {:induction false} ScanIsLoosest(t: Table, tails: seq<Tail>, k: nat)
    requires Strict(t) && Resolved(t, tails) && 1 <= k <= |tails| && Scan(t, tails, k).Some?
    ensures Loosest(t, tails, k, Scan(t, tails, k).value)
  {
    if k > 1 {
      ScanIsLoosest(t, tails, k - 1);
      LoosestStep(t, tails, k - 1, Scan(t, tails, k - 1).value);
    }
  }

  lemma LoosestStep(t: Table, tails: seq<Tail>, k: nat, best: nat)
    requires Strict(t) && Resolved(t, tails) && best < k < |tails| && Loosest(t, tails, k, best)
    ensures match CompareOps(t, tails[k], tails[best])
            case TighterThan => Loosest(t, tails, k + 1, best)
            case LooserThan => Loosest(t, tails, k + 1, k)
            case Equal => Loosest(t, tails, k + 1, if t.ops[tails[best].idx].left then k else best)
            case Incomparable => !Related(t, tails[best].idx, tails[k].idx)
  {
    SameOpSameIndex(t, tails, k, best);
    if CompareOps(t, tails[k], tails[best]) == LooserThan {
      forall i: nat | i < k
        ensures Tighter(t, tails[i].idx, tails[k].idx)
      {
        assert AtLeastAsTight(t, tails[i].idx, tails[best].idx);
      }
    }
  }

  lemma LoosestUnique(t: Table, tails: seq<Tail>, a: nat, b: nat)
    requires Strict(t) && Resolved(t, tails) && a < |tails| && b < |tails|
    requires Loosest(t, tails, |tails|, a) && Loosest(t, tails, |tails|, b)
    ensures a == b
  {
    assert AtLeastAsTight(t, tails[a].idx, tails[b].idx);
    assert AtLeastAsTight(t, tails[b].idx, tails[a].idx);
  }

  /** An occurrence unrelated to the running loosest is at fault with it: nothing between them is looser. */
  lemma StuckIsFault(t: Table, tails: seq<Tail>, k: nat, best: nat)
    requires Strict(t) && Resolved(t, tails) && best < k < |tails| && Loosest(t, tails, k, best)
    requires !Related(t, tails[best].idx, tails[k].idx)
    ensures Fault(t, Idx(tails), best, k)
  {
    var ops := Idx(tails);
    forall x: nat {:trigger Shields(t, ops, best, k, x)} | best < x < k
      ensures !Shields(t, ops, best, k, x)
    {
      assert AtLeastAsTight(t, tails[x].idx, tails[best].idx);
    }
  }

  /** Without a fault the scan never meets an incomparable pair. */
  lemma {:induction false} NoFaultScans(t: Table, tails: seq<Tail>, k: nat)
    requires Strict(t) && Resolved(t, tails) && 1 <= k <= |tails| && ChainOk(t, Idx(tails))
    ensures Scan(t, tails, k).Some?
  {
    if k > 1 {
      NoFaultScans(t, tails, k - 1);
      ScanIsLoosest(t, tails, k - 1);
      var best := Scan(t, tails, k - 1).value;
      SameOpSameIndex(t, tails, k - 1, best);
      if !Related(t, tails[best].idx, tails[k - 1].idx) {
        StuckIsFault(t, tails, k - 1, best);
      }
    }
  }

  lemma LiftFault(t: Table, tails: seq<Tail>, lo: nat, hi: nat, i: nat, j: nat)
    requires lo <= hi <= |tails| && Fault(t, Idx(tails[lo..hi]), i, j)
    ensures Fault(t, Idx(tails), lo + i, lo + j)
  {
    var ops, part := Idx(tails), Idx(tails[lo..hi]);
    forall k: nat {:trigger Shields(t, ops, lo + i, lo + j, k)} | lo + i < k < lo + j
      ensures !Shields(t, ops, lo + i, lo + j, k)
    {
      assert !Shields(t, part, i, j, k - lo);
    }
  }

  /** A contiguous part of a fault-free chain is fault-free. */
  lemma PartOk(t: Table, tails: seq<Tail>, lo: nat, hi: nat)
    requires lo <= hi <= |tails| && ChainOk(t, Idx(tails))
    ensures ChainOk(t, Idx(tails[lo..hi]))
  {
    forall i: nat, j: nat
      ensures !Fault(t, Idx(tails[lo..hi]), i, j)
    {
      if Fault(t, Idx(tails[lo..hi]), i, j) {
        LiftFault(t, tails, lo, hi, i, j);
      }
    }
  }

  // ---------------------------------------------------------------- trees over a chain

  /** A binary tree over a chain's operands. Its operands are leaves even where they are chains themselves. */
  datatype Tree = Leaf(e: Expr) | Bin(left: Tree, op: Name, backtick: bool, idx: nat, right: Tree)

  /** The leftmost operand. */
  function Head(s: Tree): Expr
  {
    match s
    case Leaf(e) => e
    case Bin(l, _, _, _, _) => Head(l)
  }

  /** The operators in order, each with the operand to its right. */
  function Tails(s: Tree): seq<Tail>
  {
    match s
    case Leaf(_) => []
    case Bin(l, op, b, i, r) => Tails(l) + [Tail(op, b, Head(r), i)] + Tails(r)
  }

  /** The node the pass builds for a tree. */
  function ToExpr(s: Tree): Expr
  {
    match s
    case Leaf(e) => e
    case Bin(l, op, b, _, r) => Chain(ToExpr(l), [ChainOp(op, b, ToExpr(r))])
  }

  /** Every operator of `s` binds at least as tight as operator `a`, and repeats of `a` are allowed only if `same`. */
  ghost predicate Under(t: Table, s: Tree, a: nat, same: bool)
  {
    forall x | x in Tails(s) :: AtLeastAsTight(t, x.idx, a) && (x.idx == a ==> same)
  }

  /**
    Every operator is looser than or the same as all operators below it; repeats of one
    operator nest to the left when it is left-associative and to the right otherwise.
   */
  ghost predicate WellNested(t: Table, s: Tree)
  {
    match s
    case Leaf(_) => true
    case Bin(l, _, _, a, r) =>
      && a < |t.ops|
      && Under(t, l, a, t.ops[a].left) && Under(t, r, a, !t.ops[a].left)
      && WellNested(t, l) && WellNested(t, r)
  }

  /** The tree behind `Split`. */
  function SplitTree(t: Table, h: Expr, tails: seq<Tail>): Tree
    requires Resolved(t, tails)
    decreases |tails|
  {
    if |tails| == 0 then Leaf(h)
    else match Scan(t, tails, |tails|)
      case None => Leaf(h)
      case Some(idx) =>
        var at := tails[idx];
        Bin(SplitTree(t, h, tails[..idx]), at.op, at.backtick, at.idx, SplitTree(t, at.rhs, tails[idx + 1..]))
  }

  lemma {:induction false} SplitBuildsTree(t: Table, h: Expr, tails: seq<Tail>)
    requires Resolved(t, tails)
    ensures Split(t, h, tails).0 == ToExpr(SplitTree(t, h, tails))
    decreases |tails|
  {
    hide Scan;
    if |tails| > 0 && Scan(t, tails, |tails|).Some? {
      var idx := Scan(t, tails, |tails|).value;
      SplitBuildsTree(t, h, tails[..idx]);
      SplitBuildsTree(t, tails[idx].rhs, tails[idx + 1..]);
    }
  }

  /** A finished split has the original operands and operators, in order. */
  lemma {:induction false} SplitKeepsOrder(t: Table, h: Expr, tails: seq<Tail>)
    requires Resolved(t, tails) && Split(t, h, tails).1
    ensures Head(SplitTree(t, h, tails)) == h && Tails(SplitTree(t, h, tails)) == tails
    decreases |tails|
  {
    if |tails| > 0 {
      var idx := Scan(t, tails, |tails|).value;
      SplitKeepsOrder(t, h, tails[..idx]);
      SplitKeepsOrder(t, tails[idx].rhs, tails[idx + 1..]);
      SplitTreeStep(t, h, tails, idx);
      JoinKeepsOrder(SplitTree(t, h, tails[..idx]), SplitTree(t, tails[idx].rhs, tails[idx + 1..]), tails, idx);
    }
  }

  lemma SplitTreeStep(t: Table, h: Expr, tails: seq<Tail>, idx: nat)
    requires Resolved(t, tails) && |tails| > 0 && Scan(t, tails, |tails|) == Some(idx)
    ensures SplitTree(t, h, tails) ==
            Bin(SplitTree(t, h, tails[..idx]), tails[idx].op, tails[idx].backtick, tails[idx].idx,
                SplitTree(t, tails[idx].rhs, tails[idx + 1..]))
  {
  }

  lemma JoinKeepsOrder(l: Tree, r: Tree, tails: seq<Tail>, idx: nat)
    requires idx < |tails| && Head(r) == tails[idx].rhs
    requires Tails(l) == tails[..idx] && Tails(r) == tails[idx + 1..]
    ensures var s := Bin(l, tails[idx].op, tails[idx].backtick, tails[idx].idx, r);
            Head(s) == Head(l) && Tails(s) == tails
  {
    assert tails == tails[..idx] + [tails[idx]] + tails[idx + 1..];
  }

  /** A finished split is nested by looseness and associativity. */
  lemma {:induction false} SplitIsWellNested(t: Table, h: Expr, tails: seq<Tail>)
    requires Strict(t) && Resolved(t, tails) && Split(t, h, tails).1
    ensures WellNested(t, SplitTree(t, h, tails))
    decreases |tails|
  {
    if |tails| > 0 {
      var idx := Scan(t, tails, |tails|).value;
      ScanIsLoosest(t, tails, |tails|);
      SplitIsWellNested(t, h, tails[..idx]);
      SplitIsWellNested(t, tails[idx].rhs, tails[idx + 1..]);
      SplitKeepsOrder(t, h, tails[..idx]);
      SplitKeepsOrder(t, tails[idx].rhs, tails[idx + 1..]);
    }
  }

  /** A well-nested tree has no unshielded pair: its root separates, or is, one of the two. */
  lemma {:induction false} WellNestedIsOk(t: Table, s: Tree)
    requires Strict(t) && WellNested(t, s)
    ensures ChainOk(t, Idx(Tails(s)))
  {
    if s.Bin? {
      WellNestedIsOk(t, s.left);
      WellNestedIsOk(t, s.right);
      var ops := Idx(Tails(s));
      forall i: nat, j: nat
        ensures !Fault(t, ops, i, j)
      {
        RootSeparates(t, s, i, j);
      }
    }
  }

  lemma RootSeparates(t: Table, s: Tree, i: nat, j: nat)
    requires Strict(t) && WellNested(t, s) && s.Bin?
    requires ChainOk(t, Idx(Tails(s.left))) && ChainOk(t, Idx(Tails(s.right)))
    ensures !Fault(t, Idx(Tails(s)), i, j)
  {
    var all := Tails(s);
    var p := |Tails(s.left)|;
    assert all[..p] == all[0..p] == Tails(s.left);
    assert all[p + 1..] == all[p + 1..|all|] == Tails(s.right);
    if i < j < p {
      PartFault(t, all, 0, p, i, j);
    } else if p < i < j < |all| {
      PartFault(t, all, p + 1, |all|, i, j);
    } else if i < j < |all| {
      RootBetween(t, s, i, j);
    }
  }

  /** Operators on different sides of the root, or the root itself: related to it, or shielded by it. */
  lemma RootBetween(t: Table, s: Tree, i: nat, j: nat)
    requires WellNested(t, s) && s.Bin?
    requires i <= |Tails(s.left)| <= j < |Tails(s)| && i < j
    ensures !Fault(t, Idx(Tails(s)), i, j)
  {
    var xs, ys, all := Tails(s.left), Tails(s.right), Tails(s);
    var p := |xs|;
    assert all[p].idx == s.idx;
    if i < p {
      assert all[i] == xs[i] && xs[i] in xs;
    }
    if p < j {
      assert all[j] == ys[j - p - 1] && ys[j - p - 1] in ys;
    }
    var ops := Idx(all);
    assert AtLeastAsTight(t, ops[i], ops[p]) && AtLeastAsTight(t, ops[j], ops[p]);
    assert i < p < j && !Related(t, ops[i], ops[j]) ==> Shields(t, ops, i, j, p);
  }

  lemma PartFault(t: Table, tails: seq<Tail>, lo: nat, hi: nat, i: nat, j: nat)
    requires lo <= i < j < hi <= |tails| && ChainOk(t, Idx(tails[lo..hi]))
    ensures !Fault(t, Idx(tails), i, j)
  {
    var ops, part := Idx(tails), Idx(tails[lo..hi]);
    if Fault(t, ops, i, j) {
      DropFault(t, tails, lo, hi, i, j);
    }
  }

  lemma DropFault(t: Table, tails: seq<Tail>, lo: nat, hi: nat, i: nat, j: nat)
    requires lo <= i < j < hi <= |tails| && Fault(t, Idx(tails), i, j)
    ensures Fault(t, Idx(tails[lo..hi]), i - lo, j - lo)
  {
    var ops, part := Idx(tails), Idx(tails[lo..hi]);
    forall k: nat {:trigger Shields(t, part, i - lo, j - lo, k)} | i - lo < k < j - lo
      ensures !Shields(t, part, i - lo, j - lo, k)
    {
      assert !Shields(t, ops, i, j, lo + k);
    }
  }

  /** No fault: every split of the recursion finds its loosest operator. */
  lemma {:induction false} OkSplits(t: Table, h: Expr, tails: seq<Tail>)
    requires Strict(t) && Resolved(t, tails) && ChainOk(t, Idx(tails))
    ensures Split(t, h, tails).1
    decreases |tails|
  {
    hide Strict, ChainOk, Scan;
    if |tails| > 0 {
      NoFaultScans(t, tails, |tails|);
      var idx := Scan(t, tails, |tails|).value;
      assert tails[..idx] == tails[0..idx] && tails[idx + 1..] == tails[idx + 1..|tails|];
      PartOk(t, tails, 0, idx);
      PartOk(t, tails, idx + 1, |tails|);
      OkSplits(t, h, tails[..idx]);
      OkSplits(t, tails[idx].rhs, tails[idx + 1..]);
    }
  }

  /**
    The shield theorem: the local rule over pairs of occurrences finds no fault exactly when
    the recursive split never meets an incomparable pair.
   */
  lemma ShieldTheorem(t: Table, h: Expr, tails: seq<Tail>)
    requires Strict(t) && Resolved(t, tails)
    ensures ChainOk(t, Idx(tails)) <==> Split(t, h, tails).1
  {
    if ChainOk(t, Idx(tails)) {
      OkSplits(t, h, tails);
    }
    if Split(t, h, tails).1 {
      SplitIsWellNested(t, h, tails);
      SplitKeepsOrder(t, h, tails);
      WellNestedIsOk(t, SplitTree(t, h, tails));
    }
  }

  lemma {:induction false} RootIsLoosest(t: Table, s: Tree)
    requires Strict(t) && WellNested(t, s) && s.Bin? && Resolved(t, Tails(s))
    ensures Loosest(t, Tails(s), |Tails(s)|, |Tails(s.left)|)
  {
    var xs, ys, all := Tails(s.left), Tails(s.right), Tails(s);
    var p := |xs|;
    forall i: nat | i < |all|
      ensures AtLeastAsTight(t, all[i].idx, all[p].idx)
      ensures all[i].idx == all[p].idx ==> if t.ops[all[p].idx].left then i <= p else p <= i
    {
      assert i < p ==> all[i] in xs;
      assert p < i ==> all[i] == ys[i - p - 1] && all[i] in ys;
    }
  }

  /** The split is the only well-nested tree over its chain, and it is found whenever one exists. */
  lemma {:induction false} WellNestedIsSplit(t: Table, s: Tree)
    requires Strict(t) && Resolved(t, Tails(s)) && WellNested(t, s)
    ensures Split(t, Head(s), Tails(s)).1 && SplitTree(t, Head(s), Tails(s)) == s
  {
    if s.Bin? {
      var xs, ys, all := Tails(s.left), Tails(s.right), Tails(s);
      RootIsScanned(t, s);
      assert all[..|xs|] == xs && all[|xs| + 1..] == ys;
      assert all[|xs|] == Tail(s.op, s.backtick, Head(s.right), s.idx);
      ResolvedParts(t, xs, all[|xs|], ys);
      WellNestedIsSplit(t, s.left);
      WellNestedIsSplit(t, s.right);
    }
  }

  lemma ResolvedParts(t: Table, xs: seq<Tail>, x: Tail, ys: seq<Tail>)
    requires Resolved(t, xs + [x] + ys)
    ensures Resolved(t, xs) && Resolved(t, ys)
  {
    var all := xs + [x] + ys;
    assert forall i: nat | i < |xs| :: xs[i] == all[i];
    assert forall i: nat | i < |ys| :: ys[i] == all[i + |xs| + 1];
  }

  lemma RootIsScanned(t: Table, s: Tree)
    requires Strict(t) && Resolved(t, Tails(s)) && WellNested(t, s) && s.Bin?
    ensures Scan(t, Tails(s), |Tails(s)|) == Some(|Tails(s.left)|)
  {
    var all := Tails(s);
    WellNestedIsOk(t, s);
    NoFaultScans(t, all, |all|);
    ScanIsLoosest(t, all, |all|);
    RootIsLoosest(t, s);
    LoosestUnique(t, all, Scan(t, all, |all|).value, |Tails(s.left)|);
  }

  // ---------------------------------------------------------------- the whole pass

  /** The linear scan of the table; the table's length when the name has no entry. */
  function FixFind(t: Table, name: Name, from: nat): (r: nat)
    requires from <= |t.ops|
    ensures from <= r <= |t.ops| && (r < |t.ops| ==> t.ops[r].name == name)
    ensures forall i: nat | from <= i < r :: t.ops[i].name != name
    decreases |t.ops| - from
  {
    if from == |t.ops| || t.ops[from].name == name then from else FixFind(t, name, from + 1)
  }

  predicate AllDeclared(t: Table, ops: seq<ChainOp>)
  {
    forall i: nat | i < |ops| :: FixFind(t, ops[i].op, 0) < |t.ops|
  }

  function ToTails(t: Table, ops: seq<ChainOp>): (r: seq<Tail>)
    requires AllDeclared(t, ops)
    ensures |r| == |ops| && Resolved(t, r)
    ensures forall i: nat | i < |ops| :: r[i] == Tail(ops[i].op, ops[i].backtick, ops[i].rhs, FixFind(t, ops[i].op, 0))
  {
    seq(|ops|, i requires 0 <= i < |ops| => Tail(ops[i].op, ops[i].backtick, ops[i].rhs, FixFind(t, ops[i].op, 0)))
  }

  /** One chain whose children are done: an undeclared operator is reported and leaves it as it is. */
  function ReorderChain(t: Table, head: Expr, ops: seq<ChainOp>): (Expr, bool)
  {
    if AllDeclared(t, ops) then Split(t, head, ToTails(t, ops)) else (Chain(head, ops), false)
  }

  /** The bottom-up walk over every child of every node. The flag is true when nothing was reported. */
  function ReorderNode(t: Table, e: Expr): (Expr, bool)
    decreases e, 1
  {
    match e
    case Node(tag, kids) =>
      var r := ReorderKids(t, kids);
      (Node(tag, r.0), r.1)
    case Chain(head, ops) =>
      var h := ReorderNode(t, head);
      var r := ReorderOps(t, ops);
      var c := ReorderChain(t, h.0, r.0);
      (c.0, h.1 && r.1 && c.1)
  }

  function ReorderKids(t: Table, kids: seq<Expr>): (r: (seq<Expr>, bool))
    ensures |r.0| == |kids|
    decreases kids, 0
  {
    if kids == [] then ([], true)
    else
      var x := ReorderNode(t, kids[0]);
      var r := ReorderKids(t, kids[1..]);
      ([x.0] + r.0, x.1 && r.1)
  }

  function ReorderOps(t: Table, ops: seq<ChainOp>): (r: (seq<ChainOp>, bool))
    ensures |r.0| == |ops|
    ensures forall i: nat | i < |ops| :: r.0[i].op == ops[i].op
    decreases ops, 0
  {
    if ops == [] then ([], true)
    else
      var x := ReorderNode(t, ops[0].rhs);
      var r := ReorderOps(t, ops[1..]);
      ([ChainOp(ops[0].op, ops[0].backtick, x.0)] + r.0, x.1 && r.1)
  }

  /** The pass on a file: a neighbour-only entry anywhere in the table stops it before any node is walked. */
  function WokReorder(t: Table, file: Expr): (Expr, bool)
  {
    if forall i: nat | i < |t.ops| :: t.ops[i].declOff != -1 then ReorderNode(t, file) else (file, false)
  }

  /** Every chain of the tree, at any depth, has only declared operators and passes the local rule. */
  ghost predicate AllChainsOk(t: Table, e: Expr)
  {
    match e
    case Node(_, kids) => forall k | k in kids :: AllChainsOk(t, k)
    case Chain(head, ops) =>
      && AllDeclared(t, ops) && ChainOk(t, Idx(ToTails(t, ops)))
      && AllChainsOk(t, head)
      && forall o | o in ops :: AllChainsOk(t, o.rhs)
  }

  lemma SameOperators(t: Table, a: seq<ChainOp>, b: seq<ChainOp>)
    requires |a| == |b| && forall i: nat | i < |a| :: a[i].op == b[i].op
    ensures AllDeclared(t, a) <==> AllDeclared(t, b)
    ensures AllDeclared(t, a) ==> Idx(ToTails(t, a)) == Idx(ToTails(t, b))
  {
    if AllDeclared(t, a) {
      assert forall i: nat | i < |a| :: b[i].op == a[i].op;
      assert AllDeclared(t, b);
      var xs, ys := ToTails(t, a), ToTails(t, b);
      assert forall i: nat | i < |a| :: xs[i].idx == ys[i].idx;
    } else {
      assert forall i: nat | i < |a| :: b[i].op == a[i].op;
    }
  }

  /** The pass reports nothing exactly when the local rule passes every chain of the tree. */
  lemma {:induction false} ReorderOkIff(t: Table, e: Expr)
    requires Strict(t)
    ensures ReorderNode(t, e).1 <==> AllChainsOk(t, e)
    decreases e, 1
  {
    match e
    case Node(_, kids) => KidsOkIff(t, kids);
    case Chain(head, ops) =>
      ReorderOkIff(t, head);
      OpsOkIff(t, ops);
      var done := ReorderOps(t, ops).0;
      SameOperators(t, ops, done);
      if AllDeclared(t, ops) {
        ShieldTheorem(t, ReorderNode(t, head).0, ToTails(t, done));
      }
  }

  lemma {:induction false} KidsOkIff(t: Table, kids: seq<Expr>)
    requires Strict(t)
    ensures ReorderKids(t, kids).1 <==> forall k | k in kids :: AllChainsOk(t, k)
    decreases kids, 0
  {
    if kids != [] {
      ReorderOkIff(t, kids[0]);
      KidsOkIff(t, kids[1..]);
      assert forall k :: k in kids <==> k == kids[0] || k in kids[1..];
    }
  }

  lemma {:induction false} OpsOkIff(t: Table, ops: seq<ChainOp>)
    requires Strict(t)
    ensures ReorderOps(t, ops).1 <==> forall o | o in ops :: AllChainsOk(t, o.rhs)
    decreases ops, 0
  {
    if ops != [] {
      ReorderOkIff(t, ops[0].rhs);
      OpsOkIff(t, ops[1..]);
      assert forall o :: o in ops <==> o == ops[0] || o in ops[1..];
    }
  }

  // ---------------------------------------------------------------- reordering twice

  predicate Settled(t: Table, e: Expr)
  {
    ReorderNode(t, e) == (e, true)
  }

  /** A one-operator chain over settled operands is settled. */
  lemma OneOpSettled(t: Table, l: Expr, op: ChainOp)
    requires Settled(t, l) && Settled(t, op.rhs) && FixFind(t, op.op, 0) < |t.ops|
    ensures Settled(t, Chain(l, [op]))
  {
    var ops := [op];
    assert ReorderOps(t, ops[1..]) == ([], true);
    assert ReorderOps(t, ops).0 == [ChainOp(op.op, op.backtick, op.rhs)] + [] == ops;
    assert AllDeclared(t, ops);
    var tails := ToTails(t, ops);
    assert tails[..0] == [] && tails[1..] == [];
    assert Split(t, l, tails) == (Chain(l, [ChainOp(op.op, op.backtick, op.rhs)]), true);
  }

  lemma {:induction false} SplitSettled(t: Table, h: Expr, tails: seq<Tail>)
    requires Resolved(t, tails) && Split(t, h, tails).1
    requires Settled(t, h) && forall x | x in tails :: Settled(t, x.rhs) && FixFind(t, x.op, 0) < |t.ops|
    ensures Settled(t, Split(t, h, tails).0)
    decreases |tails|
  {
    hide Settled, FixFind, Scan;
    if |tails| > 0 {
      var idx := Scan(t, tails, |tails|).value;
      var at := tails[idx];
      SplitSettled(t, h, tails[..idx]);
      SplitSettled(t, at.rhs, tails[idx + 1..]);
      var left, right := Split(t, h, tails[..idx]), Split(t, at.rhs, tails[idx + 1..]);
      OneOpSettled(t, left.0, ChainOp(at.op, at.backtick, right.0));
      assert Split(t, h, tails).0 == Chain(left.0, [ChainOp(at.op, at.backtick, right.0)]);
    }
  }

  /** Reordering a reordered tree changes nothing. */
  lemma {:induction false} ReorderTwice(t: Table, e: Expr)
    requires ReorderNode(t, e).1
    ensures Settled(t, ReorderNode(t, e).0)
    decreases e, 1
  {
    match e
    case Node(_, kids) => KidsTwice(t, kids);
    case Chain(head, ops) =>
      ReorderTwice(t, head);
      OpsTwice(t, ops);
      var done := ReorderOps(t, ops).0;
      SplitSettled(t, ReorderNode(t, head).0, ToTails(t, done));
  }

  lemma {:induction false} KidsTwice(t: Table, kids: seq<Expr>)
    requires ReorderKids(t, kids).1
    ensures ReorderKids(t, ReorderKids(t, kids).0) == (ReorderKids(t, kids).0, true)
    decreases kids, 0
  {
    if kids != [] {
      ReorderTwice(t, kids[0]);
      KidsTwice(t, kids[1..]);
      var out := ReorderKids(t, kids).0;
      assert out[0] == ReorderNode(t, kids[0]).0 && out[1..] == ReorderKids(t, kids[1..]).0;
    }
  }

  lemma {:induction false} OpsTwice(t: Table, ops: seq<ChainOp>)
    requires ReorderOps(t, ops).1
    ensures forall x | x in ReorderOps(t, ops).0 :: Settled(t, x.rhs)
    decreases ops, 0
  {
    if ops != [] {
      ReorderTwice(t, ops[0].rhs);
      OpsTwice(t, ops[1..]);
    }
  }

  /** The pass on a file succeeds exactly when no entry is neighbour-only and every chain passes the local rule. */
  lemma FileOkIff(t: Table, file: Expr)
    requires Strict(t)
    ensures WokReorder(t, file).1 <==> (forall i: nat | i < |t.ops| :: t.ops[i].declOff != -1) && AllChainsOk(t, file)
  {
    ReorderOkIff(t, file);
    hide ReorderNode, AllChainsOk;
  }

  /** And run on its own result it changes nothing. */
  lemma FileTwice(t: Table, file: Expr)
    requires WokReorder(t, file).1
    ensures WokReorder(t, WokReorder(t, file).0) == (WokReorder(t, file).0, true)
  {
    ReorderTwice(t, file);
    hide ReorderNode;
  }

  // ---------------------------------------------------------------- what the pass returns

  /**
    `r` is `e` with every chain, at any depth, nested: the same nodes and children, and for each chain a
    well-nested tree over its operators in order, whose operands are the rebuilt operands.
   */
  ghost predicate Rebuilt(t: Table, e: Expr, r: Expr)
    decreases e, 1
  {
    match e
    case Node(tag, kids) =>
      r.Node? && r.tag == tag && |r.kids| == |kids| && forall i: nat | i < |kids| :: Rebuilt(t, kids[i], r.kids[i])
    case Chain(head, ops) =>
      exists s: Tree :: r == ToExpr(s) && WellNested(t, s) && Rebuilt(t, head, Head(s)) && Matches(t, ops, Tails(s))
  }

  ghost predicate Matches(t: Table, ops: seq<ChainOp>, tails: seq<Tail>)
    decreases ops, 0
  {
    && Resolved(t, tails) && |tails| == |ops|
    && forall i: nat | i < |ops| ::
         tails[i].op == ops[i].op && tails[i].backtick == ops[i].backtick && Rebuilt(t, ops[i].rhs, tails[i].rhs)
  }

  /** A pass that reports nothing returns the rebuilt tree. */
  lemma {:induction false} ReorderRebuilds(t: Table, e: Expr)
    requires Strict(t) && ReorderNode(t, e).1
    ensures Rebuilt(t, e, ReorderNode(t, e).0)
    decreases e, 1
  {
    hide Strict, Split, SplitTree, WellNested, Resolved;
    match e
    case Node(_, kids) => KidsRebuilt(t, kids);
    case Chain(head, ops) =>
      ReorderRebuilds(t, head);
      OpsRebuilt(t, ops);
      var h, tails := ReorderNode(t, head).0, ToTails(t, ReorderOps(t, ops).0);
      SplitBuildsTree(t, h, tails);
      SplitKeepsOrder(t, h, tails);
      SplitIsWellNested(t, h, tails);
      var s := SplitTree(t, h, tails);
      assert Matches(t, ops, Tails(s));
  }

  lemma {:induction false} KidsRebuilt(t: Table, kids: seq<Expr>)
    requires Strict(t) && ReorderKids(t, kids).1
    ensures var r := ReorderKids(t, kids).0; forall i: nat | i < |kids| :: Rebuilt(t, kids[i], r[i])
    decreases kids, 0
  {
    hide Strict, Rebuilt;
    if kids != [] {
      ReorderRebuilds(t, kids[0]);
      KidsRebuilt(t, kids[1..]);
      var r, more := ReorderKids(t, kids).0, ReorderKids(t, kids[1..]).0;
      forall i: nat | i < |kids|
        ensures Rebuilt(t, kids[i], r[i])
      {
        assert i > 0 ==> kids[i] == kids[1..][i - 1] && r[i] == more[i - 1];
      }
    }
  }

  lemma {:induction false} OpsRebuilt(t: Table, ops: seq<ChainOp>)
    requires Strict(t) && ReorderOps(t, ops).1
    ensures var r := ReorderOps(t, ops).0;
            forall i: nat | i < |ops| ::
              r[i].op == ops[i].op && r[i].backtick == ops[i].backtick && Rebuilt(t, ops[i].rhs, r[i].rhs)
    decreases ops, 0
  {
    hide Strict, Rebuilt;
    if ops != [] {
      ReorderRebuilds(t, ops[0].rhs);
      OpsRebuilt(t, ops[1..]);
      var r, more := ReorderOps(t, ops).0, ReorderOps(t, ops[1..]).0;
      forall i: nat | i < |ops|
        ensures r[i].op == ops[i].op && r[i].backtick == ops[i].backtick && Rebuilt(t, ops[i].rhs, r[i].rhs)
      {
        assert i > 0 ==> ops[i] == ops[1..][i - 1] && r[i] == more[i - 1];
      }
    }
  }

  /** And there is only one. */
  lemma {:induction false} RebuiltOnce(t: Table, e: Expr, r: Expr, q: Expr)
    requires Strict(t) && Rebuilt(t, e, r) && Rebuilt(t, e, q)
    ensures r == q
    decreases e, 1
  {
    match e
    case Node(_, kids) =>
      forall i: nat | i < |kids|
        ensures r.kids[i] == q.kids[i]
      {
        RebuiltOnce(t, kids[i], r.kids[i], q.kids[i]);
      }
      assert r.kids == q.kids;
    case Chain(head, ops) =>
      var a: Tree :| r == ToExpr(a) && WellNested(t, a) && Rebuilt(t, head, Head(a)) && Matches(t, ops, Tails(a));
      var b: Tree :| q == ToExpr(b) && WellNested(t, b) && Rebuilt(t, head, Head(b)) && Matches(t, ops, Tails(b));
      RebuiltOnce(t, head, Head(a), Head(b));
      MatchesOnce(t, ops, Tails(a), Tails(b));
      hide Strict, Rebuilt, Matches, WellNested, SplitTree;
      WellNestedIsSplit(t, a);
      WellNestedIsSplit(t, b);
  }

  lemma {:induction false} MatchesOnce(t: Table, ops: seq<ChainOp>, a: seq<Tail>, b: seq<Tail>)
    requires Strict(t) && Matches(t, ops, a) && Matches(t, ops, b)
    ensures a == b && Resolved(t, a)
    decreases ops, 0
  {
    forall i: nat | i < |ops|
      ensures a[i] == b[i]
    {
      RebuiltOnce(t, ops[i].rhs, a[i].rhs, b[i].rhs);
      assert t.ops[a[i].idx].name == t.ops[b[i].idx].name;
    }
  }

  /** The whole pass: a file reported clean comes back rebuilt, and as nothing else. */
  lemma FileRebuilt(t: Table, file: Expr, r: Expr)
    requires Strict(t) && WokReorder(t, file).1
    ensures Rebuilt(t, file, r) <==> r == WokReorder(t, file).0
  {
    ReorderRebuilds(t, file);
    hide Strict, ReorderNode, Rebuilt;
    if Rebuilt(t, file, r) {
      RebuiltOnce(t, file, r, WokReorder(t, file).0);
    }
  }
}
