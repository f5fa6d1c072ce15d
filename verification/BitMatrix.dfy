/**
  The relation behind the fixity order (grammar/c/wok_resolve.c:57-103 and 393-402):
  a bit matrix packed sixty-four columns to a word, closed in place by Warshall's
  algorithm with one row-OR per pair.
*/
module BitMatrix {

  // ---------------------------------------------------------------- bits of a word

  /** `1 << k`. */
  function Mask(k: nat): bv64
    requires k < 64
  {
    if k == 0 then 1 else Mask(k - 1) << 1
  }

  predicate Meets(w: bv64, m: bv64)
  {
    w & m != 0
  }

  /** Bit `k` of `w`: what the source writes as `w >> k & 1`. */
  predicate HasBit(w: bv64, k: nat)
    requires k < 64
  {
    Meets(w, Mask(k))
  }

  function Shifted(x: bv64, n: nat): bv64
    decreases n
  {
    if n == 0 then x else Shifted(x << 1, n - 1)
  }

  lemma {:induction false} ShiftedZero(n: nat)
    ensures Shifted(0, n) == 0
  {
    if n > 0 {
      ShiftedZero(n - 1);
    }
  }

  lemma {:induction false} ShiftedMask(k: nat, n: nat)
    requires k + n < 64
    ensures Shifted(Mask(k), n) == Mask(k + n)
    decreases n
  {
    if n > 0 {
      ShiftedMask(k + 1, n - 1);
    }
  }

  /** No bit is shifted out of the word. */
  lemma MaskNonZero(k: nat)
    requires k < 64
    ensures Mask(k) != 0
  {
    ShiftedMask(k, 63 - k);
    ShiftedZero(63 - k);
    assert Mask(8) == 0x100;
    assert Mask(16) == 0x1_0000;
    assert Mask(24) == 0x100_0000;
    assert Mask(32) == 0x1_0000_0000;
    assert Mask(40) == 0x100_0000_0000;
    assert Mask(48) == 0x1_0000_0000_0000;
    assert Mask(56) == 0x100_0000_0000_0000;
    assert Mask(63) == 0x8000_0000_0000_0000;
  }

  lemma {:induction false} MasksDisjoint(k: nat, l: nat)
    requires k < l < 64
    ensures !Meets(Mask(k), Mask(l))
  {
    if k == 0 {
      LowBitClear(Mask(l - 1));
    } else {
      MasksDisjoint(k - 1, l - 1);
      ShiftAnd(Mask(k - 1), Mask(l - 1));
    }
  }

  lemma LowBitClear(x: bv64)
    ensures !Meets(1, x << 1)
  {
  }

  lemma ShiftAnd(x: bv64, y: bv64)
    requires !Meets(x, y)
    ensures !Meets(x << 1, y << 1)
  {
  }

  lemma MeetsOr(a: bv64, b: bv64, m: bv64)
    ensures Meets(a | b, m) <==> Meets(a, m) || Meets(b, m)
  {
    assert (a | b) & m == (a & m) | (b & m);
    OrZero(a & m, b & m);
  }

  lemma OrZero(x: bv64, y: bv64)
    ensures x | y == 0 <==> x == 0 && y == 0
  {
  }

  lemma MeetsSelf(m: bv64)
    requires m != 0
    ensures Meets(m, m)
  {
  }

  lemma MeetsSwap(a: bv64, b: bv64)
    ensures Meets(a, b) <==> Meets(b, a)
  {
  }

  lemma ZeroMeets(m: bv64)
    ensures !Meets(0, m)
  {
  }

  /** OR-ing two words unites their bits. */
  lemma OrUnites(a: bv64, b: bv64, k: nat)
    requires k < 64
    ensures HasBit(a | b, k) <==> HasBit(a, k) || HasBit(b, k)
  {
    MeetsOr(a, b, Mask(k));
  }

  lemma MaskBits(k: nat, l: nat)
    requires k < 64 && l < 64
    ensures HasBit(Mask(k), l) <==> k == l
  {
    if k == l {
      MaskNonZero(k);
      MeetsSelf(Mask(k));
    } else if k < l {
      MasksDisjoint(k, l);
    } else {
      MasksDisjoint(l, k);
      MeetsSwap(Mask(k), Mask(l));
    }
  }

  /** Setting one bit changes no other. */
  lemma SetBit(w: bv64, k: nat, l: nat)
    requires k < 64 && l < 64
    ensures HasBit(w | Mask(k), l) <==> HasBit(w, l) || k == l
  {
    OrUnites(w, Mask(k), l);
    MaskBits(k, l);
  }

  // ---------------------------------------------------------------- paths

  type Relation = set<(nat, nat)>

  /** Reachability from `i` to `j` by a non-empty path whose inner nodes are all below `k`. */
  ghost predicate Through(e: Relation, k: nat, i: nat, j: nat)
  {
    if k == 0 then (i, j) in e
    else Through(e, k - 1, i, j) || (Through(e, k - 1, i, k - 1) && Through(e, k - 1, k - 1, j))
  }

  /** A non-empty path of edges, written as the nodes it visits. */
  ghost predicate IsPath(e: Relation, p: seq<nat>)
  {
    |p| >= 2 && forall x: nat | x < |p| - 1 :: (p[x], p[x + 1]) in e
  }

  ghost predicate Inner(p: seq<nat>, k: nat)
  {
    forall x: int | 0 < x < |p| - 1 :: p[x] < k
  }

  ghost predicate Reaches(e: Relation, i: nat, j: nat)
  {
    exists p: seq<nat> :: IsPath(e, p) && p[0] == i && p[|p| - 1] == j
  }

  lemma {:induction false} ThroughHasPath(e: Relation, k: nat, i: nat, j: nat) returns (p: seq<nat>)
    requires Through(e, k, i, j)
    ensures IsPath(e, p) && p[0] == i && p[|p| - 1] == j
  {
    if k == 0 {
      p := [i, j];
    } else if Through(e, k - 1, i, j) {
      p := ThroughHasPath(e, k - 1, i, j);
    } else {
      var a := ThroughHasPath(e, k - 1, i, k - 1);
      var b := ThroughHasPath(e, k - 1, k - 1, j);
      p := a + b[1..];
      forall x: nat | x < |p| - 1
        ensures (p[x], p[x + 1]) in e
      {
        if x >= |a| - 1 {
          assert p[x] == b[x - (|a| - 1)] && p[x + 1] == b[x + 1 - (|a| - 1)];
        }
      }
    }
  }

  lemma {:induction false} PathIsThrough(e: Relation, k: nat, p: seq<nat>)
    requires IsPath(e, p) && Inner(p, k)
    ensures Through(e, k, p[0], p[|p| - 1])
    decreases k, |p|
  {
    var second := p[1];
    if k == 0 {
    } else if x: nat :| 0 < x < |p| - 1 && p[x] == k - 1 {
      var a, b := p[..x + 1], p[x..];
      assert IsPath(e, a) && IsPath(e, b) by {
        assert forall y: nat | y < |a| - 1 :: (a[y], a[y + 1]) == (p[y], p[y + 1]);
        assert forall y: nat | y < |b| - 1 :: (b[y], b[y + 1]) == (p[x + y], p[x + y + 1]);
      }
      assert Inner(a, k) && Inner(b, k) by {
        assert forall y: nat | 0 < y < |b| - 1 :: b[y] == p[x + y];
      }
      PathIsThrough(e, k, a);
      PathIsThrough(e, k, b);
    } else {
      assert Inner(p, k - 1);
      PathIsThrough(e, k - 1, p);
    }
  }

  ghost predicate Within(e: Relation, n: nat)
  {
    forall i, j :: (i, j) in e ==> i < n && j < n
  }

  /** After all `n` rounds, the closure is reachability along non-empty paths. */
  lemma ClosureIsReachability(e: Relation, n: nat, i: nat, j: nat)
    requires Within(e, n)
    ensures Through(e, n, i, j) <==> Reaches(e, i, j)
  {
    if Through(e, n, i, j) {
      var p := ThroughHasPath(e, n, i, j);
    }
    if Reaches(e, i, j) {
      var p: seq<nat> :| IsPath(e, p) && p[0] == i && p[|p| - 1] == j;
      forall x: nat | 0 < x < |p| - 1
        ensures p[x] < n
      {
        assert (p[x], p[x + 1]) in e;
      }
      PathIsThrough(e, n, p);
    }
  }

  /** Reachability is transitive, which is what `tighter than` is read by. */
  lemma ReachesTransitive(e: Relation, i: nat, j: nat, k: nat)
    requires Reaches(e, i, j) && Reaches(e, j, k)
    ensures Reaches(e, i, k)
  {
    var a: seq<nat> :| IsPath(e, a) && a[0] == i && a[|a| - 1] == j;
    var b: seq<nat> :| IsPath(e, b) && b[0] == j && b[|b| - 1] == k;
    var p := a + b[1..];
    forall x: nat | x < |p| - 1
      ensures (p[x], p[x + 1]) in e
    {
      if x >= |a| - 1 {
        assert p[x] == b[x - (|a| - 1)] && p[x + 1] == b[x + 1 - (|a| - 1)];
      }
    }
    assert IsPath(e, p) && p[0] == i && p[|p| - 1] == k;
  }

  // ---------------------------------------------------------------- the matrix

  class Matrix {
    const n: nat
    const words: nat
    const edge: array2<bv64>  // the source's flat `edge[i * words + w]`

    ghost predicate Valid()
      reads this
    {
      edge.Length0 == n && edge.Length1 == words && words == (n + 63) / 64
    }

    constructor (size: nat)
      ensures Valid() && n == size && fresh(edge)
      ensures forall i: nat, j: nat | i < n && j < n :: !Bit(i, j)
    {
      n := size;
      words := (size + 63) / 64;
      edge := new bv64[size, (size + 63) / 64]((_, _) => 0);
      new;
      forall i: nat, j: nat | i < n && j < n
        ensures !Bit(i, j)
      {
        ZeroMeets(Mask(j % 64));
      }
    }

    predicate Bit(i: nat, j: nat)
      requires Valid() && i < n && j < n
      reads this, edge
    {
      HasBit(edge[i, j / 64], j % 64)
    }

    /** The set bits, as a relation. */
    ghost predicate Is(e: Relation)
      requires Valid()
      reads this, edge
    {
      Within(e, n) && forall i: nat, j: nat | i < n && j < n :: Bit(i, j) <==> (i, j) in e
    }

    method Set(i: nat, j: nat)
      requires Valid() && i < n && j < n
      modifies edge
      ensures forall r: nat, c: nat | r < n && c < n :: Bit(r, c) <==> old(Bit(r, c)) || (r == i && c == j)
    {
      var word := WithBit(edge[i, j / 64], j % 64);
      edge[i, j / 64] := word;
    }

    /** ORs row `k` into row `i`, one word at a time. The two rows may be the same. */
    method OrRow(i: nat, k: nat)
      requires Valid() && i < n && k < n
      modifies edge
      ensures forall r: nat, c: nat | r < n && c < n ::
                Bit(r, c) <==> old(Bit(r, c)) || (r == i && old(Bit(k, c)))
    {
      for w := 0 to words
        invariant forall v: nat, b: nat | v < w && b < 64 ::
                    HasBit(edge[i, v], b) <==> HasBit(old(edge[i, v]), b) || HasBit(old(edge[k, v]), b)
        invariant forall v: nat | w <= v < words :: edge[i, v] == old(edge[i, v])
        invariant forall r: nat, v: nat | r < n && v < words && r != i :: edge[r, v] == old(edge[r, v])
      {
        var word := OrWord(edge[i, w], edge[k, w]);
        edge[i, w] := word;
      }
    }

    /** Warshall's closure, in place: bit (i, j) ends set exactly when a non-empty path joins i to j. */
    method Close(ghost e: Relation)
      requires Valid() && Is(e)
      modifies edge
      ensures forall i: nat, j: nat | i < n && j < n :: Bit(i, j) <==> Reaches(e, i, j)
    {
      for k := 0 to n
        invariant forall i: nat, j: nat | i < n && j < n :: Bit(i, j) <==> Through(e, k, i, j)
      {
        for i := 0 to n
          invariant forall r: nat, j: nat | r < i && j < n :: Bit(r, j) <==> Through(e, k + 1, r, j)
          invariant forall r: nat, j: nat | i <= r < n && j < n :: Bit(r, j) <==> Through(e, k, r, j)
        {
          if Bit(i, k) {
            OrRow(i, k);
          }
        }
      }
      forall i: nat, j: nat | i < n && j < n
        ensures Bit(i, j) <==> Reaches(e, i, j)
      {
        ClosureIsReachability(e, n, i, j);
      }
    }
  }

  method OrWord(a: bv64, b: bv64) returns (c: bv64)
    ensures forall k: nat | k < 64 :: HasBit(c, k) <==> HasBit(a, k) || HasBit(b, k)
  {
    c := a | b;
    forall k: nat | k < 64
      ensures HasBit(c, k) <==> HasBit(a, k) || HasBit(b, k)
    {
      OrUnites(a, b, k);
    }
  }

  method WithBit(w: bv64, k: nat) returns (c: bv64)
    requires k < 64
    ensures forall l: nat | l < 64 :: HasBit(c, l) <==> HasBit(w, l) || k == l
  {
    c := w | Mask(k);
    forall l: nat | l < 64
      ensures HasBit(c, l) <==> HasBit(w, l) || k == l
    {
      SetBit(w, k, l);
    }
  }
}
