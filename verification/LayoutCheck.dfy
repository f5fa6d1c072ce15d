/**
  The stream contract a debug build runs over every emitted stream (wok_layout_check,
  grammar/c/wok_layout.c:150-204), and what the filter's own output makes of it.
*/
module LayoutCheck {
  import opened Layout

  /** Brackets balance from depth `d`: no closer too many, none left open. */
  predicate BracketsClose(d: nat, out: seq<Tok>)
    decreases |out|
  {
    if out == [] then d == 0 else !(out[0].kind.Close? && d == 0) && BracketsClose(BracketOne(d, out[0]), out[1..])
  }

  /** No INDENT before token `i` meets a DEDENT. */
  predicate NoEmptyBlockBefore(out: seq<Tok>, i: nat)
  {
    forall j: nat | j < i && j + 1 < |out| :: out[j].kind.Indent? ==> !out[j + 1].kind.Dedent?
  }

  /** The five invariants of the header, with its declared length bound. */
  ghost predicate Contract(out: seq<Tok>, inputN: nat, strict: bool)
  {
    && out != [] && LastTok(out).kind.Eof?
    && |out| <= 3 * inputN + MAX_DEPTH + 8
    && Nest([1], out) == [1]
    && NoEmptyBlock(out)
    && (strict && BracketsClose(0, out) ==> LayoutOutside(0, out))
  }

  /** What is still to be read from token `i` on, given what the loop has gathered. */
  ghost predicate Remaining(out: seq<Tok>, i: nat, cols: seq<nat>, bracket: nat, balanced: bool, outside: bool)
    requires i <= |out|
  {
    && 0 < |cols| <= MAX_DEPTH + 1 && cols[0] == 1
    && Nest([1], out) == Nest(cols, out[i..])
    && NoEmptyBlockBefore(out, i)
    && (BracketsClose(0, out) <==> balanced && BracketsClose(bracket, out[i..]))
    && (LayoutOutside(0, out) <==> outside && LayoutOutside(bracket, out[i..]))
  }

  lemma UnfoldNest(cols: seq<nat>, out: seq<Tok>, i: nat)
    requires i < |out| && cols != []
    ensures Nest(cols, out[i..]) == Nest(NestOne(cols, out[i]), out[i + 1..])
    ensures NestOne(cols, out[i]) == [] ==> Nest(cols, out[i..]) == []
  {
    assert out[i..][1..] == out[i + 1..];
  }

  lemma UnfoldBrackets(d: nat, out: seq<Tok>, i: nat)
    requires i < |out|
    ensures BracketsClose(d, out[i..]) <==>
            !(out[i].kind.Close? && d == 0) && BracketsClose(BracketOne(d, out[i]), out[i + 1..])
    ensures LayoutOutside(d, out[i..]) <==>
            (IsLayout(out[i]) ==> d == 0) && LayoutOutside(BracketOne(d, out[i]), out[i + 1..])
  {
    assert out[i..][1..] == out[i + 1..];
  }

  lemma KeepsBottom(cols: seq<nat>, t: Tok)
    requires 0 < |cols| <= MAX_DEPTH + 1 && cols[0] == 1
    ensures var next := NestOne(cols, t); |next| <= MAX_DEPTH + 1 && (next != [] ==> next[0] == 1)
  {
  }

  lemma RemainingStep(out: seq<Tok>, i: nat, cols: seq<nat>, bracket: nat, balanced: bool, outside: bool)
    requires i < |out| && Remaining(out, i, cols, bracket, balanced, outside)
    ensures NestOne(cols, out[i]) == [] ==> Nest([1], out) != [1]
    ensures i + 1 < |out| && out[i].kind.Indent? && out[i + 1].kind.Dedent? ==> !NoEmptyBlock(out)
    ensures NestOne(cols, out[i]) != [] && !(i + 1 < |out| && out[i].kind.Indent? && out[i + 1].kind.Dedent?) ==>
              Remaining(out, i + 1, NestOne(cols, out[i]), BracketOne(bracket, out[i]),
                        balanced && !(out[i].kind.Close? && bracket == 0), outside
                          && !(IsLayout(out[i]) && bracket > 0))
  {
    UnfoldNest(cols, out, i);
    UnfoldBrackets(bracket, out, i);
    KeepsBottom(cols, out[i]);
    hide Nest, NoEmptyBlock, BracketsClose, LayoutOutside, NestOne, BracketOne, IsLayout;
  }

  lemma RemainingEnd(out: seq<Tok>, cols: seq<nat>, bracket: nat, balanced: bool, outside: bool)
    requires Remaining(out, |out|, cols, bracket, balanced, outside)
    ensures Nest([1], out) == [1] <==> |cols| == 1
    ensures NoEmptyBlock(out)
    ensures BracketsClose(0, out) <==> balanced && bracket == 0
    ensures LayoutOutside(0, out) <==> outside
  {
  }

  lemma RemainingStart(out: seq<Tok>)
    ensures Remaining(out, 0, [1], 0, true, true)
  {
    assert out[0..] == out;
  }

  /** One INDENT or DEDENT on the checker's own column array. */
  method CheckDepth(out: array<Tok>, n: nat, i: nat, cols: array<nat>, depth: nat) returns (ok: bool, depth': nat)
    requires i < n <= out.Length && cols.Length == MAX_DEPTH + 1 && depth < cols.Length
    modifies cols
    ensures var next := NestOne(old(cols[..depth + 1]), out[i]);
            ok <==> next != [] && !(i + 1 < n && out[i].kind.Indent? && out[i + 1].kind.Dedent?)
    ensures ok ==> depth' < cols.Length && cols[..depth' + 1] == NestOne(old(cols[..depth + 1]), out[i])
  {
    ok, depth' := true, depth;
    if out[i].kind.Indent? {
      if depth + 1 > MAX_DEPTH || out[i].col <= cols[depth] {
        return false, depth;
      }
      depth' := depth + 1;
      cols[depth'] := out[i].col;
      ok := !(i + 1 < n && out[i + 1].kind.Dedent?);
      assert cols[..depth' + 1] == old(cols[..depth + 1]) + [out[i].col];
    } else if out[i].kind.Dedent? {
      if depth == 0 {
        return false, depth;
      }
      depth' := depth - 1;
      assert old(cols[..depth + 1])[..depth] == cols[..depth' + 1];
    }
  }

  method WokLayoutCheck(out: array<Tok>, n: nat, inputN: nat, strict: bool) returns (ok: bool)
    requires n <= out.Length
    ensures ok <==> Contract(out[..n], inputN, strict)
  {
    hide Nest, NoEmptyBlock, BracketsClose, LayoutOutside, Remaining;
    if n == 0 || !out[n - 1].kind.Eof? || n > inputN * 3 + MAX_DEPTH + 8 {
      return false;
    }
    var cols := new nat[MAX_DEPTH + 1](_ => 1);
    var depth: nat, bracket: nat, balanced, inside, i: nat := 0, 0, true, false, 0;
    RemainingStart(out[..n]);
    assert cols[..1] == [1];
    while i < n
      invariant 0 <= i <= n && fresh(cols) && out[..n] == old(out[..n]) && depth < cols.Length
      invariant Remaining(out[..n], i, cols[..depth + 1], bracket, balanced, !inside)
    {
      RemainingStep(out[..n], i, cols[..depth + 1], bracket, balanced, !inside);
      var deeper;
      ok, deeper := CheckDepth(out, n, i, cols, depth);
      if !ok {
        return false;
      }
      depth := deeper;
      inside := inside || (bracket > 0 && IsLayout(out[i]));
      if out[i].kind.Open? {
        bracket := bracket + 1;
      } else if out[i].kind.Close? {
        if bracket == 0 {
          balanced := false;
        } else {
          bracket := bracket - 1;
        }
      }
      i := i + 1;
    }
    RemainingEnd(out[..n], cols[..depth + 1], bracket, balanced, !inside);
    balanced := balanced && bracket == 0;
    ok := depth == 0 && !(strict && balanced && inside);
  }

  lemma EndsAtEof(ts: seq<Tok>)
    requires Scanned(ts)
    ensures Output(ts) != [] && LastTok(Output(ts)) == ts[|ts| - 1]
  {
    hide LineOf, Write;
    RunStep(ts, |ts|);
  }

  /**
    On its own output the contract can fail in two ways only: the input asks for more separators and
    blocks than the header's 3n + MAX_DEPTH + 8 leaves room for, or, asked for strict brackets, a group
    that was abandoned is balanced by a later closer.
   */
  lemma OwnOutputPasses(ts: seq<Tok>, strict: bool)
    requires Scanned(ts) && (strict ==> NoBracketFault(Faults(ts)))
    ensures Contract(Output(ts), |ts|, strict) <==>
            Separators(ts, |ts|) + 2 * Blocks(ts, |ts|) <= 2 * |ts| + MAX_DEPTH + 8
  {
    hide Run, Scanned, Nest, NoEmptyBlock, BracketsClose, LayoutOutside, NoBracketFault;
    ScannedParts(ts);
    EndsAtEof(ts);
    Balanced(ts);
    NoIndentThenDedent(ts);
    CapacityExactly(ts);
    if strict {
      LayoutOutsideBrackets(ts);
    }
  }

  /** The contract refuses the filter's own output on this family from 76 tokens on. */
  lemma ContractRefusesDescent(n: nat)
    requires n >= 2
    ensures Contract(Output(Descent(n)), n, false) <==> n < 76
  {
    hide Run, Scanned, Contract;
    BoundAttained(n);
    OwnOutputPasses(Descent(n), false);
    CapacityExactly(Descent(n));
  }

  // ---------------------------------------------------------------- too long without any fault

  /** Item lines at columns 1, 2, 3, over and over. */
  function Staircase(m: nat): (ts: seq<Tok>)
    ensures |ts| == 3 * m + 1
  {
    seq(3 * m + 1, i requires 0 <= i < 3 * m + 1 =>
      if i < 3 * m then Tok(i, 1, i % 3 + 1, Item(0), true) else Tok(i, 0, 1, Eof, true))
  }

  lemma ClimbStep(st: State, t: Tok)
    requires st.stack == [1] || st.stack == [1, 2]
    requires !st.firstLogical && st.bracket == 0 && t.first && t.kind == Item(0) && t.col == |st.stack| + 1
    ensures var s := Step(st, t);
            s.st == st.(stack := st.stack + [t.col]) && |s.out| == 3 && s.faults == []
  {
  }

  lemma FallStep(st: State, t: Tok)
    requires st.stack == [1, 2, 3] && !st.firstLogical && st.bracket == 0
    requires t.first && t.kind == Item(0) && t.col == 1
    ensures var s := Step(st, t);
            s.st == st.(stack := [1]) && |s.out| == 4 && s.faults == []
  {
    assert PopTo([1], 1) == [1];
    assert [1, 2][..1] == [1];
    assert PopTo([1, 2], 1) == [1];
    assert st.stack[..2] == [1, 2];
  }

  /** After a flight of stairs. */
  ghost predicate AtTop(r: StepOut, m: nat)
  {
    r.st.stack == [1, 2, 3] && !r.st.firstLogical && r.st.bracket == 0 && |r.out| == 10 * m - 3 && r.faults == []
  }

  lemma StairLine(m: nat, k: nat, r: nat, i: nat)
    requires k < m && r < 3 && i == 3 * k + r
    ensures Staircase(m)[i] == Tok(i, 1, r + 1, Item(0), true)
  {
    assert i % 3 == r;
  }

  lemma Flight(ts: seq<Tok>, i: nat, k: nat)
    requires i + 3 <= |ts| && AtTop(Run(ts, i), k)
    requires ts[i] == Tok(i, 1, 1, Item(0), true)
    requires ts[i + 1] == Tok(i + 1, 1, 2, Item(0), true) && ts[i + 2] == Tok(i + 2, 1, 3, Item(0), true)
    ensures AtTop(Run(ts, i + 3), k + 1)
  {
    hide Run, Step;
    RunStep(ts, i + 1);
    FallStep(Run(ts, i).st, ts[i]);
    RunStep(ts, i + 2);
    ClimbStep(Run(ts, i + 1).st, ts[i + 1]);
    RunStep(ts, i + 3);
    ClimbStep(Run(ts, i + 2).st, ts[i + 2]);
  }

  lemma FlightStep(m: nat, k: nat)
    requires 1 <= k < m && AtTop(Run(Staircase(m), 3 * k), k)
    ensures AtTop(Run(Staircase(m), 3 * (k + 1)), k + 1)
  {
    hide *;
    var i := 3 * k;
    StairLine(m, k, 0, i);
    StairLine(m, k, 1, i + 1);
    StairLine(m, k, 2, i + 2);
    Flight(Staircase(m), i, k);
    assert i + 3 == 3 * (k + 1);
  }

  lemma FirstFlight(m: nat)
    requires m >= 1
    ensures AtTop(Run(Staircase(m), 3), 1)
  {
    hide Run, Step;
    var ts := Staircase(m);
    FirstLine(ts);
    RunStep(ts, 2);
    ClimbStep(Run(ts, 1).st, ts[1]);
    RunStep(ts, 3);
    ClimbStep(Run(ts, 2).st, ts[2]);
  }

  lemma FirstLine(ts: seq<Tok>)
    requires |ts| > 0 && ts[0] == Tok(0, 1, 1, Item(0), true)
    ensures Run(ts, 1) == StepOut(State([1], 0, 0, 0, false), [ts[0]], [])
  {
    FirstStep(ts[0]);
    hide Step;
    NothingRun(ts);
    RunStep(ts, 1);
  }

  lemma FirstStep(t: Tok)
    requires t == Tok(0, 1, 1, Item(0), true)
    ensures Step(START, t) == StepOut(State([1], 0, 0, 0, false), [t], [])
  {
    assert LineOf(START, t) == LineOut([1], false, 0, false, []);
    assert Write(LineOf(START, t), t) == [];
  }

  lemma {:induction false} Flights(m: nat, k: nat)
    requires 1 <= k <= m
    ensures AtTop(Run(Staircase(m), 3 * k), k)
  {
    hide *;
    if k == 1 {
      FirstFlight(m);
    } else {
      Flights(m, k - 1);
      FlightStep(m, k - 1);
    }
  }

  lemma StaircaseEnd(st: State, t: Tok)
    requires st.stack == [1, 2, 3] && !st.firstLogical && st.bracket == 0 && t.kind.Eof?
    ensures |Step(st, t).out| == 4 && Step(st, t).faults == []
  {
    assert PopTo([1], 0) == [1];
    assert [1, 2][..1] == [1];
    assert PopTo([1, 2], 0) == [1];
    assert st.stack[..2] == [1, 2];
  }

  /** Perfectly indented input overruns the declared capacity as well, with no fault to blame. */
  lemma StaircaseOverruns(m: nat)
    requires m >= 1
    ensures Scanned(Staircase(m)) && Faults(Staircase(m)) == []
    ensures |Output(Staircase(m))| > 3 * |Staircase(m)| + MAX_DEPTH + 8 <==> m >= 75
  {
    hide Run, Step;
    var ts := Staircase(m);
    Flights(m, m);
    RunStep(ts, 3 * m + 1);
    StaircaseEnd(Run(ts, 3 * m).st, ts[3 * m]);
  }
}
